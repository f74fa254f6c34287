/** Three-way reconciliation: invoices against purchase orders and receipts. */
module ThreeWay {
  import opened Prelude
  import opened Domain
  import opened MoneyRounding
  import opened InvoiceHelpers
  import opened ReceiptTotals
  import opened GroupExposure

  /** A result row; `invoice` holds the ten invoice fields the row repeats. */
  datatype ThreeWayResult = ThreeWayResult(
    invoice: InvoiceLine, status: Status, issues: seq<Issue>,
    ordered: Option<real>, received: Option<real>, previous: real,
    supported: Option<real>, poPrice: Option<real>, disputed: Money)

  datatype ThreeWayReport = ThreeWayReport(results: seq<ThreeWayResult>, summary: Summary)

  // ----- specification

  function ReceivedFor(receipts: seq<Receipt>, po: PoLine): (r: Option<real>)
    ensures r.Some? ==> r.value >= 0.0
  {
    Received(receipts, PoTarget(po))
  }

  function LineIssues(
    invoice: InvoiceLine, po: PoLine, received: Option<real>, prior: real, duplicate: bool, config: Config)
    : set<Issue>
  {
    var i0 := With({}, duplicate, DuplicateInvoice);
    var i1 := With(i0, invoice.supplier != po.supplier, SupplierMismatch);
    var i2 := With(i1, invoice.currency != po.currency, CurrencyMismatch);
    var i3 := With(i2, received.None?, MissingReceipt);
    var i4 := With(i3, prior + invoice.quantity > po.ordered, QuantityExceedsPo);
    var i5 := With(i4, received.Some? && prior + invoice.quantity > received.value, QuantityExceedsReceipt);
    With(i5, !PriceWithinTolerance(invoice.price, po.price, config), PriceMismatch)
  }

  lemma LineIssuesMeaning(
      invoice: InvoiceLine, po: PoLine, received: Option<real>, prior: real, duplicate: bool, config: Config)
    ensures var issues := LineIssues(invoice, po, received, prior, duplicate, config);
            && (DuplicateInvoice in issues <==> duplicate)
            && (SupplierMismatch in issues <==> invoice.supplier != po.supplier)
            && (CurrencyMismatch in issues <==> invoice.currency != po.currency)
            && (MissingReceipt in issues <==> received.None?)
            && (QuantityExceedsPo in issues <==> prior + invoice.quantity > po.ordered)
            && (QuantityExceedsReceipt in issues <==>
                  received.Some? && prior + invoice.quantity > received.value)
            && (PriceMismatch in issues <==> !PriceWithinTolerance(invoice.price, po.price, config))
            && UnknownPo !in issues && UnknownItem !in issues
            && ReceiptItemMismatch !in issues && OverReceived !in issues
  {
  }

  function SupportedQuantity(
    invoiced: Quantity, ordered: Quantity, received: Option<real>, prior: real, allocationAllowed: bool): real
  {
    if !allocationAllowed || received.None? then 0.0
    else Min(invoiced, Min(Max(ordered - prior, 0.0), Max(received.value - prior, 0.0)))
  }

  /** The result row of one invoice line, given the groups walked before its own. */
  function LineResult(
    invoice: InvoiceLine, orders: Orders, receipts: seq<Receipt>, before: seq<Group>,
    duplicate: bool, allocationAllowed: bool, config: Config): ThreeWayResult
  {
    match Resolve(invoice, orders)
    case Unresolved(issue) =>
      ThreeWayResult(
        invoice, ReviewRequired, OrderIssues(With({}, duplicate, DuplicateInvoice) + {issue}),
        None, None, 0.0, None, None, RoundMoney(LineAmount(invoice), config))
    case Resolved(po) =>
      var prior := Prior(before, orders, PoKeyOf(invoice));
      var received := ReceivedFor(receipts, po);
      var issues := OrderIssues(LineIssues(invoice, po, received, prior, duplicate, config));
      var supported := SupportedQuantity(invoice.quantity, po.ordered, received, prior, allocationAllowed);
      ThreeWayResult(
        invoice, StatusOf(issues), issues, Some(po.ordered), received, prior,
        Some(supported), Some(po.price), DisputedAmount(invoice, po, supported, issues, config))
  }

  function GroupResults(
    group: Group, orders: Orders, receipts: seq<Receipt>, before: seq<Group>, config: Config)
    : (rows: seq<ThreeWayResult>)
    ensures |rows| == |group|
  {
    seq(|group|, j requires 0 <= j < |group| =>
      LineResult(group[j], orders, receipts, before, |group| > 1, !Ambiguous(group), config))
  }

  /** Result rows of every group, each computed after the groups before it. */
  function RowsOf(groups: seq<Group>, orders: Orders, receipts: seq<Receipt>, config: Config)
    : (rows: seq<seq<ThreeWayResult>>)
    ensures |rows| == |groups|
    ensures forall i :: 0 <= i < |groups| ==>
      rows[i] == GroupResults(groups[i], orders, receipts, groups[..i], config)
  {
    seq(|groups|, i requires 0 <= i < |groups| =>
      GroupResults(groups[i], orders, receipts, groups[..i], config))
  }

  function DisputeOf(row: ThreeWayResult): Money {
    row.disputed
  }

  function OutcomeOf(row: ThreeWayResult): Outcome {
    Outcome(row.status, row.issues)
  }

  function ReportOf(
    groups: seq<Group>, invoices: seq<InvoiceLine>, orders: Orders, receipts: seq<Receipt>, config: Config)
    : ThreeWayReport
  {
    var rows := RowsOf(groups, orders, receipts, config);
    var results := Flatten(rows);
    ThreeWayReport(
      results,
      SummaryOf(invoices, OutcomesOf(results, OutcomeOf), ExposuresOf(groups, Columns(rows, DisputeOf)), config))
  }

  function Report(lines: seq<PoLine>, receipts: seq<Receipt>, invoices: seq<InvoiceLine>, config: Config)
    : ThreeWayReport
  {
    ReportOf(GroupsOf(invoices), invoices, OrdersOf(lines), receipts, config)
  }

  // ----- the engine's loops

  /** The receipt dictionary holds the received quantity of every resolvable PO line. */
  ghost predicate TotalsAgree(totals: map<PoKey, real>, orders: Orders, receipts: seq<Receipt>) {
    forall k :: k in orders.index ==>
      ReceivedFor(receipts, orders.index[k]) == if k in totals then Some(totals[k]) else None
  }

  /** One receipt counts toward the PO line it names, and toward no other. */
  lemma ReceiptCounts(orders: Orders, receipts: seq<Receipt>, receipt: Receipt, k: PoKey)
    requires ValidOrders(orders) && k in orders.index
    ensures var po := orders.index[k];
            ReceivedFor(receipts + [receipt], po)
            == if PoKey(receipt.poNumber, receipt.poLine) == k && receipt.item == po.item
               then Some(ReceivedFor(receipts, po).GetOr(0.0) + receipt.received)
               else ReceivedFor(receipts, po)
  {
    var po := orders.index[k];
    var target, all := PoTarget(po), receipts + [receipt];
    assert all[..|receipts|] == receipts && all[..|all|] == all;
    ReceivedSnoc(all, |receipts|, target);
    if !HasReceipt(receipts, target) {
      NothingReceived(receipts, target);
    }
  }

  lemma TotalsStep(totals: map<PoKey, real>, orders: Orders, receipts: seq<Receipt>, receipt: Receipt)
    requires ValidOrders(orders) && TotalsAgree(totals, orders, receipts)
    ensures var key := PoKey(receipt.poNumber, receipt.poLine);
            TotalsAgree(
              if key in orders.index && receipt.item == orders.index[key].item
              then totals[key := Lookup(totals, key) + receipt.received] else totals,
              orders, receipts + [receipt])
  {
    forall k | k in orders.index
      ensures ReceivedFor(receipts, orders.index[k]) == if k in totals then Some(totals[k]) else None
    {
      ReceiptCounts(orders, receipts, receipt, k);
    }
    forall k | k in orders.index
      ensures ReceivedFor(receipts + [receipt], orders.index[k])
           == if PoKey(receipt.poNumber, receipt.poLine) == k && receipt.item == orders.index[k].item
              then Some(ReceivedFor(receipts, orders.index[k]).GetOr(0.0) + receipt.received)
              else ReceivedFor(receipts, orders.index[k])
    {
      ReceiptCounts(orders, receipts, receipt, k);
    }
  }

  method AggregateReceipts(orders: Orders, receipts: seq<Receipt>) returns (totals: map<PoKey, real>)
    requires ValidOrders(orders)
    ensures TotalsAgree(totals, orders, receipts)
    ensures forall k :: k in totals ==> k in orders.index
  {
    totals := map[];
    for n := 0 to |receipts|
      invariant TotalsAgree(totals, orders, receipts[..n])
      invariant forall k :: k in totals ==> k in orders.index
    {
      var receipt := receipts[n];
      var key := PoKey(receipt.poNumber, receipt.poLine);
      TotalsStep(totals, orders, receipts[..n], receipt);
      assert receipts[..n + 1] == receipts[..n] + [receipt];
      if key in orders.index && receipt.item == orders.index[key].item {
        totals := totals[key := Lookup(totals, key) + receipt.received];
      }
    }
    assert receipts[..|receipts|] == receipts;
  }

  method FindIssues(
      invoice: InvoiceLine, po: PoLine, received: Option<real>, previous: real, duplicate: bool, config: Config)
      returns (issues: set<Issue>)
    ensures issues == LineIssues(invoice, po, received, previous, duplicate, config)
  {
    issues := {};
    if duplicate {
      issues := issues + {DuplicateInvoice};
    }
    if invoice.supplier != po.supplier {
      issues := issues + {SupplierMismatch};
    }
    if invoice.currency != po.currency {
      issues := issues + {CurrencyMismatch};
    }
    if received.None? {
      issues := issues + {MissingReceipt};
    }
    if previous + invoice.quantity > po.ordered {
      issues := issues + {QuantityExceedsPo};
    }
    if received.Some? && previous + invoice.quantity > received.value {
      issues := issues + {QuantityExceedsReceipt};
    }
    if !PriceWithinTolerance(invoice.price, po.price, config) {
      issues := issues + {PriceMismatch};
    }
  }

  method ReconcileInvoiceLine(
      invoice: InvoiceLine, orders: Orders, totals: map<PoKey, real>, consumed: map<PoKey, real>,
      duplicate: bool, allocationAllowed: bool, config: Config,
      ghost receipts: seq<Receipt>, ghost before: seq<Group>) returns (result: ThreeWayResult)
    requires ValidOrders(orders)
    requires TotalsAgree(totals, orders, receipts) && ConsumedAgrees(consumed, orders, before)
    ensures result == LineResult(invoice, orders, receipts, before, duplicate, allocationAllowed, config)
  {
    var resolution := Resolve(invoice, orders);
    if resolution.Unresolved? {
      var found: set<Issue> := {};
      if duplicate {
        found := found + {DuplicateInvoice};
      }
      found := found + {resolution.issue};
      return ThreeWayResult(
        invoice, ReviewRequired, OrderIssues(found), None, None, 0.0, None, None,
        RoundMoney(LineAmount(invoice), config));
    }
    var po := resolution.po;
    var key := PoKey(po.number, po.line);
    var previous := Lookup(consumed, key);
    var received := if key in totals then Some(totals[key]) else None;
    var issues := FindIssues(invoice, po, received, previous, duplicate, config);
    var supported := SupportedQuantity(invoice.quantity, po.ordered, received, previous, allocationAllowed);
    var ordered := OrderIssues(issues);
    var status := if ordered != [] then ReviewRequired else Matched;
    var disputed := DisputedAmount(invoice, po, supported, ordered, config);
    result := ThreeWayResult(
      invoice, status, ordered, Some(po.ordered), received, previous, Some(supported), Some(po.price), disputed);
  }

  method ReconcileGroup(
      group: Group, orders: Orders, totals: map<PoKey, real>, consumed: map<PoKey, real>, config: Config,
      ghost receipts: seq<Receipt>, ghost before: seq<Group>)
      returns (rows: seq<ThreeWayResult>, ambiguous: bool)
    requires ValidOrders(orders)
    requires TotalsAgree(totals, orders, receipts) && ConsumedAgrees(consumed, orders, before)
    ensures rows == GroupResults(group, orders, receipts, before, config)
    ensures ambiguous == Ambiguous(group)
  {
    var duplicate := |group| > 1;
    ambiguous := duplicate && Ambiguous(group);
    AmbiguousMeans(group);
    rows := [];
    for j := 0 to |group|
      invariant rows == GroupResults(group, orders, receipts, before, config)[..j]
    {
      var row := ReconcileInvoiceLine(
        group[j], orders, totals, consumed, duplicate, !ambiguous, config, receipts, before);
      rows := rows + [row];
    }
  }

  method ConsumeUnlessAmbiguous(group: Group, ambiguous: bool, orders: Orders, consumed: map<PoKey, real>)
      returns (after: map<PoKey, real>)
    requires ambiguous == Ambiguous(group)
    ensures forall k :: Lookup(after, k) == Lookup(consumed, k) + Share(group, orders, k)
  {
    after := consumed;
    if !ambiguous {
      after := ConsumeGroupCapacity(group, orders, consumed);
    }
  }

  method WalkGroups(groups: seq<Group>, orders: Orders, totals: map<PoKey, real>, config: Config,
      ghost receipts: seq<Receipt>) returns (results: seq<ThreeWayResult>, exposures: seq<Exposure>)
    requires ValidOrders(orders) && TotalsAgree(totals, orders, receipts)
    ensures var all := RowsOf(groups, orders, receipts, config);
            results == Flatten(all) && exposures == ExposuresOf(groups, Columns(all, DisputeOf))
  {
    var consumed: map<PoKey, real> := map[];
    results, exposures := [], [];
    ghost var all := RowsOf(groups, orders, receipts, config);
    for i := 0 to |groups|
      invariant ConsumedAgrees(consumed, orders, groups[..i])
      invariant Walked(groups, all, DisputeOf, i, results, exposures)
    {
      var group := groups[i];
      var rows, ambiguous := ReconcileGroup(group, orders, totals, consumed, config, receipts, groups[..i]);
      var largest := Largest(rows, DisputeOf);
      var after := ConsumeUnlessAmbiguous(group, ambiguous, orders, consumed);
      ConsumedOne(consumed, orders, groups, i, after);
      WalkedOne(groups, all, DisputeOf, i, results, exposures);
      results := results + rows;
      exposures := exposures + [Exposure(group[0].currency, largest)];
      consumed := after;
    }
    assert groups[..|groups|] == groups && all[..|all|] == all;
  }

  method Reconcile(lines: seq<PoLine>, receipts: seq<Receipt>, invoices: seq<InvoiceLine>, config: Config)
      returns (report: ThreeWayReport)
    ensures report == Report(lines, receipts, invoices, config)
  {
    var orders := OrdersOf(lines);
    OrdersValid(lines);
    var totals := AggregateReceipts(orders, receipts);
    var groups := GroupInvoices(invoices);
    var results, exposures := WalkGroups(groups, orders, totals, config, receipts);
    var summary := Summarize(invoices, OutcomesOf(results, OutcomeOf), exposures, config);
    report := ThreeWayReport(results, summary);
  }
}
