/** Invoice-to-PO analysis: ordered capacity and commercial terms only. */
module InvoicePo {
  import opened Prelude
  import opened Domain
  import opened MoneyRounding
  import opened InvoiceHelpers
  import opened GroupExposure

  /** A result row; `invoice` holds the ten invoice fields the row repeats. */
  datatype InvoicePoResult = InvoicePoResult(
    invoice: InvoiceLine, status: Status, issues: seq<Issue>, previous: real,
    supported: Option<real>, ordered: Option<real>, poPrice: Option<real>, disputed: Money)

  datatype InvoicePoReport = InvoicePoReport(results: seq<InvoicePoResult>, summary: Summary)

  // ----- specification

  function LineIssues(invoice: InvoiceLine, po: PoLine, prior: real, duplicate: bool, config: Config): set<Issue> {
    var i0 := With({}, duplicate, DuplicateInvoice);
    var i1 := With(i0, invoice.supplier != po.supplier, SupplierMismatch);
    var i2 := With(i1, invoice.currency != po.currency, CurrencyMismatch);
    var i3 := With(i2, prior + invoice.quantity > po.ordered, QuantityExceedsPo);
    With(i3, !PriceWithinTolerance(invoice.price, po.price, config), PriceMismatch)
  }

  function SupportedQuantity(invoiced: Quantity, ordered: Quantity, prior: real, ambiguous: bool): real {
    if ambiguous then 0.0 else Min(invoiced, Max(ordered - prior, 0.0))
  }

  /** The result row of one invoice line, given the groups walked before its own. */
  function LineResult(
    invoice: InvoiceLine, orders: Orders, before: seq<Group>, duplicate: bool, ambiguous: bool, config: Config)
    : InvoicePoResult
  {
    match Resolve(invoice, orders)
    case Unresolved(issue) =>
      InvoicePoResult(
        invoice, ReviewRequired, OrderIssues(With({}, duplicate, DuplicateInvoice) + {issue}),
        0.0, None, None, None, RoundMoney(LineAmount(invoice), config))
    case Resolved(po) =>
      var prior := Prior(before, orders, PoKeyOf(invoice));
      var found := LineIssues(invoice, po, prior, duplicate, config);
      var issues := OrderIssues(found);
      var supported := SupportedQuantity(invoice.quantity, po.ordered, prior, ambiguous);
      InvoicePoResult(
        invoice, if found != {} then ReviewRequired else Matched, issues, prior,
        Some(supported), Some(po.ordered), Some(po.price),
        DisputedAmount(invoice, po, supported, issues, config))
  }

  function GroupResults(group: Group, orders: Orders, before: seq<Group>, config: Config)
    : (rows: seq<InvoicePoResult>)
    ensures |rows| == |group|
  {
    seq(|group|, j requires 0 <= j < |group| =>
      LineResult(group[j], orders, before, |group| > 1, Ambiguous(group), config))
  }

  function RowsOf(groups: seq<Group>, orders: Orders, config: Config): (rows: seq<seq<InvoicePoResult>>)
    ensures |rows| == |groups|
    ensures forall i :: 0 <= i < |groups| ==> rows[i] == GroupResults(groups[i], orders, groups[..i], config)
  {
    seq(|groups|, i requires 0 <= i < |groups| => GroupResults(groups[i], orders, groups[..i], config))
  }

  function DisputeOf(row: InvoicePoResult): Money {
    row.disputed
  }

  function OutcomeOf(row: InvoicePoResult): Outcome {
    Outcome(row.status, row.issues)
  }

  function ReportOf(groups: seq<Group>, invoices: seq<InvoiceLine>, orders: Orders, config: Config)
    : InvoicePoReport
  {
    var rows := RowsOf(groups, orders, config);
    var results := Flatten(rows);
    InvoicePoReport(
      results,
      SummaryOf(invoices, OutcomesOf(results, OutcomeOf), ExposuresOf(groups, Columns(rows, DisputeOf)), config))
  }

  function Report(lines: seq<PoLine>, invoices: seq<InvoiceLine>, config: Config): InvoicePoReport {
    ReportOf(GroupsOf(invoices), invoices, OrdersOf(lines), config)
  }

  // ----- the analysis loops

  method FindIssues(invoice: InvoiceLine, po: PoLine, previous: real, duplicate: bool, config: Config)
      returns (issues: set<Issue>)
    ensures issues == LineIssues(invoice, po, previous, duplicate, config)
  {
    issues := if duplicate then {DuplicateInvoice} else {};
    if invoice.supplier != po.supplier {
      issues := issues + {SupplierMismatch};
    }
    if invoice.currency != po.currency {
      issues := issues + {CurrencyMismatch};
    }
    if previous + invoice.quantity > po.ordered {
      issues := issues + {QuantityExceedsPo};
    }
    if !PriceWithinTolerance(invoice.price, po.price, config) {
      issues := issues + {PriceMismatch};
    }
  }

  method AnalyzeLine(
      invoice: InvoiceLine, orders: Orders, consumed: map<PoKey, real>, duplicate: bool, ambiguous: bool,
      config: Config, ghost before: seq<Group>) returns (result: InvoicePoResult)
    requires ValidOrders(orders) && ConsumedAgrees(consumed, orders, before)
    ensures result == LineResult(invoice, orders, before, duplicate, ambiguous, config)
  {
    var resolution := Resolve(invoice, orders);
    var previous, supported := 0.0, None;
    var issues: set<Issue>;
    var exposure: Money;
    if resolution.Unresolved? {
      issues := if duplicate then {DuplicateInvoice} else {};
      assert issues == With({}, duplicate, DuplicateInvoice);
      issues := issues + {resolution.issue};
      exposure := RoundMoney(LineAmount(invoice), config);
      return InvoicePoResult(
        invoice, ReviewRequired, OrderIssues(issues), previous, supported, None, None, exposure);
    }
    var po := resolution.po;
    previous := Lookup(consumed, PoKey(po.number, po.line));
    var quantity := if ambiguous then 0.0 else Min(invoice.quantity, Max(po.ordered - previous, 0.0));
    issues := FindIssues(invoice, po, previous, duplicate, config);
    exposure := DisputedAmount(invoice, po, quantity, OrderIssues(issues), config);
    result := InvoicePoResult(
      invoice, if issues != {} then ReviewRequired else Matched, OrderIssues(issues), previous,
      Some(quantity), Some(po.ordered), Some(po.price), exposure);
  }

  method AnalyzeGroup(group: Group, orders: Orders, consumed: map<PoKey, real>, config: Config,
      ghost before: seq<Group>) returns (rows: seq<InvoicePoResult>, ambiguous: bool)
    requires ValidOrders(orders) && ConsumedAgrees(consumed, orders, before)
    ensures rows == GroupResults(group, orders, before, config)
    ensures ambiguous == Ambiguous(group)
  {
    ambiguous := Ambiguous(group);
    rows := [];
    for j := 0 to |group|
      invariant rows == GroupResults(group, orders, before, config)[..j]
    {
      var row := AnalyzeLine(group[j], orders, consumed, |group| > 1, ambiguous, config, before);
      rows := rows + [row];
    }
  }

  method AnalyzeInvoicePo(lines: seq<PoLine>, invoices: seq<InvoiceLine>, config: Config)
      returns (report: InvoicePoReport)
    ensures report == Report(lines, invoices, config)
  {
    var orders := OrdersOf(lines);
    OrdersValid(lines);
    var groups := GroupInvoices(invoices);
    var results, exposures := WalkGroups(groups, orders, config);
    var summary := Summarize(invoices, OutcomesOf(results, OutcomeOf), exposures, config);
    report := InvoicePoReport(results, summary);
  }

  method WalkGroups(groups: seq<Group>, orders: Orders, config: Config)
      returns (results: seq<InvoicePoResult>, exposures: seq<Exposure>)
    requires ValidOrders(orders)
    ensures var all := RowsOf(groups, orders, config);
            results == Flatten(all) && exposures == ExposuresOf(groups, Columns(all, DisputeOf))
  {
    var consumed: map<PoKey, real> := map[];
    results, exposures := [], [];
    ghost var all := RowsOf(groups, orders, config);
    for i := 0 to |groups|
      invariant ConsumedAgrees(consumed, orders, groups[..i])
      invariant Walked(groups, all, DisputeOf, i, results, exposures)
    {
      var group := groups[i];
      var rows, ambiguous := AnalyzeGroup(group, orders, consumed, config, groups[..i]);
      var largest := Largest(rows, DisputeOf);
      var after := consumed;
      if !ambiguous {
        after := ConsumeGroupCapacity(group, orders, consumed);
      }
      ConsumedOne(consumed, orders, groups, i, after);
      WalkedOne(groups, all, DisputeOf, i, results, exposures);
      results := results + rows;
      exposures := exposures + [Exposure(group[0].currency, largest)];
      consumed := after;
    }
    assert groups[..|groups|] == groups && all[..|all|] == all;
  }
}
