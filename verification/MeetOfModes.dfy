/** Three-way reconciliation is the meet of the two two-way modes on the same records.

    The modes walk the same groups but key capacity differently: three-way and invoice-PO by
    PO line, invoice-receipt by (PO number, PO line, item) and only where receipts exist. */
module MeetOfModes {
  import opened Prelude
  import opened Domain
  import opened InvoiceHelpers
  import opened ReceiptTotals
  import ThreeWay
  import InvoicePo
  import InvoiceReceipt

  function IssueSet(issues: seq<Issue>): set<Issue> {
    set i | i in issues
  }

  /** Where receipts exist, both capacity keys record the same consumption. */
  lemma {:induction false} PriorsAgree(before: seq<Group>, orders: Orders, receipts: seq<Receipt>, key: PoKey)
    requires ValidOrders(orders) && key in orders.index
    requires HasReceipt(receipts, PoTarget(orders.index[key]))
    ensures Prior(before, orders, key) == InvoiceReceipt.Prior(before, receipts, PoTarget(orders.index[key]))
  {
    if before != [] {
      PriorsAgree(before[..|before| - 1], orders, receipts, key);
      var group := before[|before| - 1];
      assert Consumes(group, orders, key) <==> TargetOf(group[0]) == PoTarget(orders.index[key]);
    }
  }

  /** Without receipts, the receipt mode records no consumption. */
  lemma {:induction false} NoReceiptNoPrior(before: seq<Group>, receipts: seq<Receipt>, target: Target)
    requires !HasReceipt(receipts, target)
    ensures InvoiceReceipt.Prior(before, receipts, target) == 0.0
  {
    if before != [] {
      NoReceiptNoPrior(before[..|before| - 1], receipts, target);
    }
  }

  /** The supported quantity of a resolved line is the smaller of the two-way ones. */
  lemma SupportedIsMeet(
      invoice: InvoiceLine, orders: Orders, receipts: seq<Receipt>, before: seq<Group>,
      duplicate: bool, ambiguous: bool, config: Config)
    requires ValidOrders(orders) && Resolve(invoice, orders).Resolved?
    ensures var three := ThreeWay.LineResult(invoice, orders, receipts, before, duplicate, !ambiguous, config);
            var po := InvoicePo.LineResult(invoice, orders, before, duplicate, ambiguous, config);
            var receipt := InvoiceReceipt.LineResult(invoice, receipts, before, duplicate, ambiguous, config);
            three.supported == Some(Min(po.supported.value, receipt.supported))
  {
    var line := Resolve(invoice, orders).po;
    assert PoTarget(line) == TargetOf(invoice);
    if HasReceipt(receipts, PoTarget(line)) {
      PriorsAgree(before, orders, receipts, PoKeyOf(invoice));
    } else {
      NoReceiptNoPrior(before, receipts, PoTarget(line));
    }
    SmallerSupport(
      invoice.quantity, line.ordered, ThreeWay.ReceivedFor(receipts, line), Prior(before, orders, PoKeyOf(invoice)),
      InvoiceReceipt.Prior(before, receipts, TargetOf(invoice)), ambiguous);
  }

  lemma SmallerSupport(
      invoiced: Quantity, ordered: Quantity, received: Option<real>, prior: real, receiptPrior: real, ambiguous: bool)
    requires if received.Some? then receiptPrior == prior else receiptPrior == 0.0
    ensures ThreeWay.SupportedQuantity(invoiced, ordered, received, prior, !ambiguous)
         == Min(InvoicePo.SupportedQuantity(invoiced, ordered, prior, ambiguous),
                if ambiguous then 0.0 else Min(invoiced, Max(received.GetOr(0.0) - receiptPrior, 0.0)))
  {
  }

  /** Its issues are those of the two-way modes, less the receipt-only item mismatch. */
  lemma IssuesAreUnion(
      invoice: InvoiceLine, orders: Orders, receipts: seq<Receipt>, before: seq<Group>,
      duplicate: bool, config: Config)
    requires ValidOrders(orders) && Resolve(invoice, orders).Resolved?
    ensures var po := Resolve(invoice, orders).po;
            var prior := Prior(before, orders, PoKeyOf(invoice));
            var receiptPrior := InvoiceReceipt.Prior(before, receipts, TargetOf(invoice));
            ThreeWay.LineIssues(invoice, po, ThreeWay.ReceivedFor(receipts, po), prior, duplicate, config)
            == InvoicePo.LineIssues(invoice, po, prior, duplicate, config)
               + InvoiceReceipt.LineIssues(invoice, receipts, receiptPrior, duplicate) - {ReceiptItemMismatch}
  {
    var line := Resolve(invoice, orders).po;
    assert PoTarget(line) == TargetOf(invoice);
    if HasReceipt(receipts, PoTarget(line)) {
      PriorsAgree(before, orders, receipts, PoKeyOf(invoice));
    }
  }

  lemma OrderedIssueSet(issues: set<Issue>)
    ensures IssueSet(OrderIssues(issues)) == issues
  {
    OrderIssuesMembers(issues);
  }

  /** The three rows computed for one invoice line. */
  ghost predicate Meet(
    orders: Orders, three: ThreeWay.ThreeWayResult, po: InvoicePo.InvoicePoResult,
    receipt: InvoiceReceipt.InvoiceReceiptResult)
  {
    && three.invoice == po.invoice == receipt.invoice
    && (Resolve(three.invoice, orders).Resolved? ==>
          && three.supported.Some? && po.supported.Some?
          && three.supported.value == Min(po.supported.value, receipt.supported)
          && IssueSet(three.issues) == IssueSet(po.issues) + IssueSet(receipt.issues) - {ReceiptItemMismatch})
    && (Resolve(three.invoice, orders).Unresolved? ==>
          three.issues == po.issues && three.supported.None? && po.supported.None?)
    && (three.status == Matched <==> po.status == Matched && receipt.status == Matched)
  }

  lemma ResolvedMeet(
      invoice: InvoiceLine, orders: Orders, receipts: seq<Receipt>, before: seq<Group>, duplicate: bool, config: Config)
    requires ValidOrders(orders) && Resolve(invoice, orders).Resolved?
    ensures var po := Resolve(invoice, orders).po;
            var prior := Prior(before, orders, PoKeyOf(invoice));
            var receiptPrior := InvoiceReceipt.Prior(before, receipts, TargetOf(invoice));
            var three := ThreeWay.LineIssues(
              invoice, po, ThreeWay.ReceivedFor(receipts, po), prior, duplicate, config);
            var two := InvoicePo.LineIssues(invoice, po, prior, duplicate, config);
            var found := InvoiceReceipt.LineIssues(invoice, receipts, receiptPrior, duplicate);
            && IssueSet(OrderIssues(three))
               == IssueSet(OrderIssues(two)) + IssueSet(OrderIssues(found)) - {ReceiptItemMismatch}
            && (OrderIssues(three) == [] <==> two == {} && found == {})
  {
    var po := Resolve(invoice, orders).po;
    var prior := Prior(before, orders, PoKeyOf(invoice));
    var receiptPrior := InvoiceReceipt.Prior(before, receipts, TargetOf(invoice));
    var three := ThreeWay.LineIssues(invoice, po, ThreeWay.ReceivedFor(receipts, po), prior, duplicate, config);
    var two := InvoicePo.LineIssues(invoice, po, prior, duplicate, config);
    var found := InvoiceReceipt.LineIssues(invoice, receipts, receiptPrior, duplicate);
    IssuesAreUnion(invoice, orders, receipts, before, duplicate, config);
    MismatchIsMissing(invoice, receipts, receiptPrior, duplicate);
    UnionMeets(three, two, found);
  }

  lemma UnionMeets(three: set<Issue>, two: set<Issue>, found: set<Issue>)
    requires three == two + found - {ReceiptItemMismatch}
    requires ReceiptItemMismatch in found ==> MissingReceipt in found
    requires ReceiptItemMismatch !in two
    ensures IssueSet(OrderIssues(three))
         == IssueSet(OrderIssues(two)) + IssueSet(OrderIssues(found)) - {ReceiptItemMismatch}
    ensures OrderIssues(three) == [] <==> two == {} && found == {}
  {
    OrderedIssueSet(three);
    OrderedIssueSet(two);
    OrderedIssueSet(found);
    OrderIssuesMembers(three);
    assert MissingReceipt in found ==> MissingReceipt in three;
    if two != {} {
      var i := Pick(two);
      assert i in three;
    } else if found != {} {
      var i := Pick(found);
      assert i in three || i == ReceiptItemMismatch;
    }
  }

  /** An item mismatch is only ever reported with the missing receipt. */
  lemma MismatchIsMissing(invoice: InvoiceLine, receipts: seq<Receipt>, prior: real, duplicate: bool)
    ensures var found := InvoiceReceipt.LineIssues(invoice, receipts, prior, duplicate);
            ReceiptItemMismatch in found ==> MissingReceipt in found
  {
  }

  lemma LineMeet(
      invoice: InvoiceLine, orders: Orders, receipts: seq<Receipt>, before: seq<Group>,
      duplicate: bool, ambiguous: bool, config: Config)
    requires ValidOrders(orders)
    ensures Meet(orders,
              ThreeWay.LineResult(invoice, orders, receipts, before, duplicate, !ambiguous, config),
              InvoicePo.LineResult(invoice, orders, before, duplicate, ambiguous, config),
              InvoiceReceipt.LineResult(invoice, receipts, before, duplicate, ambiguous, config))
  {
    match Resolve(invoice, orders)
    case Unresolved(_) =>
    case Resolved(po) =>
      SupportedIsMeet(invoice, orders, receipts, before, duplicate, ambiguous, config);
      ResolvedMeet(invoice, orders, receipts, before, duplicate, config);
  }

  /** For every row of every input: the supported quantity is the minimum, the issues are the
      union, and a line is MATCHED three-way exactly when both two-way modes match it. */
  lemma {:induction false} ThreeWayIsMeet(
      lines: seq<PoLine>, receipts: seq<Receipt>, invoices: seq<InvoiceLine>, config: Config, k: nat)
    requires k < |invoices|
    ensures var three := ThreeWay.Report(lines, receipts, invoices, config).results;
            var po := InvoicePo.Report(lines, invoices, config).results;
            var receipt := InvoiceReceipt.Report(receipts, invoices, config).results;
            && |three| == |po| == |receipt| == |invoices|
            && Meet(OrdersOf(lines), three[k], po[k], receipt[k])
  {
    var groups, orders := GroupsOf(invoices), OrdersOf(lines);
    OrdersValid(lines);
    GroupsElements(invoices);
    var shape := ShapeOf(groups);
    FlattenLength(groups, shape);
    RowsAt(groups, orders, receipts, config, shape, k);
    var (i, j) := Locate(shape, k);
    LineMeet(groups[i][j], orders, receipts, groups[..i], |groups[i]| > 1, Ambiguous(groups[i]), config);
  }

  /** Row k of each mode's report comes from the same row of the same group. */
  lemma RowsAt(
      groups: seq<Group>, orders: Orders, receipts: seq<Receipt>, config: Config, shape: seq<nat>, k: nat)
    requires HasShape(groups, shape) && k < Sum(shape)
    ensures var (i, j) := Locate(shape, k);
            var duplicate, ambiguous := |groups[i]| > 1, Ambiguous(groups[i]);
            var three := Flatten(ThreeWay.RowsOf(groups, orders, receipts, config));
            var po := Flatten(InvoicePo.RowsOf(groups, orders, config));
            var receipt := Flatten(InvoiceReceipt.RowsOf(groups, receipts, config));
            && |three| == |po| == |receipt| == Sum(shape)
            && three[k]
               == ThreeWay.LineResult(groups[i][j], orders, receipts, groups[..i], duplicate, !ambiguous, config)
            && po[k] == InvoicePo.LineResult(groups[i][j], orders, groups[..i], duplicate, ambiguous, config)
            && receipt[k]
               == InvoiceReceipt.LineResult(groups[i][j], receipts, groups[..i], duplicate, ambiguous, config)
  {
    FlattenAt(ThreeWay.RowsOf(groups, orders, receipts, config), shape, k);
    FlattenAt(InvoicePo.RowsOf(groups, orders, config), shape, k);
    FlattenAt(InvoiceReceipt.RowsOf(groups, receipts, config), shape, k);
  }
}
