/** Adding receipt lines to a three-way reconciliation only helps the supplier's invoice. */
module ReceiptMonotone {
  import opened Prelude
  import opened Domain
  import opened MoneyRounding
  import opened InvoiceHelpers
  import opened ReceiptTotals
  import opened GroupExposure
  import opened ThreeWay

  lemma FullExposureMeaning(issues: set<Issue>)
    ensures FullExposure(OrderIssues(issues)) <==> issues * FULL_EXPOSURE_ISSUES != {}
  {
    OrderIssuesMembers(issues);
    if issues * FULL_EXPOSURE_ISSUES != {} {
      var i :| i in issues * FULL_EXPOSURE_ISSUES;
      assert i in OrderIssues(issues);
    }
    if FullExposure(OrderIssues(issues)) {
      var i :| i in OrderIssues(issues) && i in FULL_EXPOSURE_ISSUES;
      assert i in issues * FULL_EXPOSURE_ISSUES;
    }
  }

  lemma UncoveredShrinks(invoice: InvoiceLine, less: real, more: real, accepted: Price, config: Config)
    requires less <= more
    ensures RoundMoney(Uncovered(invoice, more, accepted), config)
         <= RoundMoney(Uncovered(invoice, less, accepted), config)
  {
    PricedMonotone(less, more, accepted);
    RoundMonotone(Uncovered(invoice, more, accepted), Uncovered(invoice, less, accepted), config);
  }

  /** More support, no new full-exposure issue and the same price verdict cannot raise a dispute. */
  lemma DisputeShrinks(
      invoice: InvoiceLine, po: PoLine, less: real, more: real,
      issues: set<Issue>, issues': set<Issue>, config: Config)
    requires less <= more
    requires issues' != {} ==> issues != {}
    requires issues * FULL_EXPOSURE_ISSUES == issues' * FULL_EXPOSURE_ISSUES
    requires PriceMismatch in issues <==> PriceMismatch in issues'
    ensures DisputedAmount(invoice, po, more, OrderIssues(issues'), config)
         <= DisputedAmount(invoice, po, less, OrderIssues(issues), config)
  {
    FullExposureMeaning(issues);
    FullExposureMeaning(issues');
    OrderIssuesMembers(issues);
    OrderIssuesMembers(issues');
    RoundZero(config);
    UncoveredShrinks(invoice, less, more, if PriceMismatch in issues then po.price else invoice.price, config);
  }

  /** A row computed with more receipts: no less supported, no more disputed, still matched. */
  ghost predicate Improves(row: ThreeWayResult, row': ThreeWayResult) {
    && row.invoice == row'.invoice
    && (row.supported.None? <==> row'.supported.None?)
    && (row.supported.Some? ==> row.supported.value <= row'.supported.value)
    && row'.disputed <= row.disputed
    && (row.status == Matched ==> row'.status == Matched)
    && row.previous == row'.previous
  }

  /** More receipts add no issue other than an overrun that replaces a missing receipt. */
  lemma IssuesImprove(
      invoice: InvoiceLine, po: PoLine, r: Option<real>, r': Option<real>, prior: real, duplicate: bool, config: Config)
    requires r.Some? ==> r'.Some? && r.value <= r'.value
    ensures var issues := LineIssues(invoice, po, r, prior, duplicate, config);
            var issues' := LineIssues(invoice, po, r', prior, duplicate, config);
            && (issues' != {} ==> issues != {})
            && issues * FULL_EXPOSURE_ISSUES == issues' * FULL_EXPOSURE_ISSUES
            && (PriceMismatch in issues <==> PriceMismatch in issues')
  {
    var issues := LineIssues(invoice, po, r, prior, duplicate, config);
    var issues' := LineIssues(invoice, po, r', prior, duplicate, config);
    LineIssuesMeaning(invoice, po, r, prior, duplicate, config);
    LineIssuesMeaning(invoice, po, r', prior, duplicate, config);
    if issues' != {} {
      var i :| i in issues';
      assert i in issues || (i == QuantityExceedsReceipt && (MissingReceipt in issues || i in issues));
    }
  }

  lemma LineImproves(
      invoice: InvoiceLine, orders: Orders, few: seq<Receipt>, many: seq<Receipt>, before: seq<Group>,
      duplicate: bool, allowed: bool, config: Config)
    requires multiset(few) <= multiset(many)
    ensures Improves(LineResult(invoice, orders, few, before, duplicate, allowed, config),
                     LineResult(invoice, orders, many, before, duplicate, allowed, config))
  {
    match Resolve(invoice, orders)
    case Unresolved(_) =>
    case Resolved(po) =>
      ReceivedGrows(few, many, PoTarget(po));
      ResolvedImproves(invoice, po, ReceivedFor(few, po), ReceivedFor(many, po),
                       Prior(before, orders, PoKeyOf(invoice)), duplicate, allowed, config);
  }

  lemma ResolvedImproves(
      invoice: InvoiceLine, po: PoLine, r: Option<real>, r': Option<real>, prior: real,
      duplicate: bool, allowed: bool, config: Config)
    requires r.Some? ==> r'.Some? && r.value <= r'.value
    ensures var issues := OrderIssues(LineIssues(invoice, po, r, prior, duplicate, config));
            var issues' := OrderIssues(LineIssues(invoice, po, r', prior, duplicate, config));
            var s := SupportedQuantity(invoice.quantity, po.ordered, r, prior, allowed);
            var s' := SupportedQuantity(invoice.quantity, po.ordered, r', prior, allowed);
            && s <= s' && (issues == [] ==> issues' == [])
            && DisputedAmount(invoice, po, s', issues', config) <= DisputedAmount(invoice, po, s, issues, config)
  {
    var issues := LineIssues(invoice, po, r, prior, duplicate, config);
    var issues' := LineIssues(invoice, po, r', prior, duplicate, config);
    IssuesImprove(invoice, po, r, r', prior, duplicate, config);
    DisputeShrinks(invoice, po, SupportedQuantity(invoice.quantity, po.ordered, r, prior, allowed),
      SupportedQuantity(invoice.quantity, po.ordered, r', prior, allowed), issues, issues', config);
    OrderIssuesMembers(issues);
    OrderIssuesMembers(issues');
  }

  /** Whatever receipt lines are added, wherever: no line loses support or gains dispute, and no
      currency's disputed total grows (a currency without an entry counts as zero). */
  lemma MoreReceiptsNeverHurt(
      lines: seq<PoLine>, few: seq<Receipt>, many: seq<Receipt>, invoices: seq<InvoiceLine>, config: Config)
    requires multiset(few) <= multiset(many)
    ensures var report := Report(lines, few, invoices, config);
            var report' := Report(lines, many, invoices, config);
            && |report.results| == |report'.results| == |invoices|
            && (forall k :: 0 <= k < |invoices| ==> Improves(report.results[k], report'.results[k]))
            && (forall c :: DisputedIn(report'.summary.disputed, c) <= DisputedIn(report.summary.disputed, c))
  {
    var groups, orders := GroupsOf(invoices), OrdersOf(lines);
    var rows: seq<seq<ThreeWayResult>> := RowsOf(groups, orders, few, config);
    var rows': seq<seq<ThreeWayResult>> := RowsOf(groups, orders, many, config);
    forall i, j | 0 <= i < |groups| && 0 <= j < |groups[i]| ensures Improves(rows[i][j], rows'[i][j]) {
      LineImproves(
        groups[i][j], orders, few, many, groups[..i], |groups[i]| > 1, !Ambiguous(groups[i]), config);
    }
    GroupsElements(invoices);
    FlattenSameLength(groups, rows);
    FlattenSameLength(rows, rows');
    forall k | 0 <= k < |invoices| ensures Improves(Flatten(rows)[k], Flatten(rows')[k]) {
      var i, j := FlattenBoth(rows, rows', k);
    }
    forall c ensures DisputedIn(Report(lines, many, invoices, config).summary.disputed, c)
                  <= DisputedIn(Report(lines, few, invoices, config).summary.disputed, c)
    {
      TotalsShrink(groups, rows, rows', config, c);
    }
  }

  lemma {:induction false} TotalsShrink(
      groups: seq<Group>, rows: seq<seq<ThreeWayResult>>, rows': seq<seq<ThreeWayResult>>, config: Config, c: Code)
    requires RowPerLine(groups, rows) && RowPerLine(groups, rows')
    requires forall i, j :: 0 <= i < |groups| && 0 <= j < |groups[i]| ==> Improves(rows[i][j], rows'[i][j])
    ensures var more := ExposuresOf(groups, Columns(rows, DisputeOf));
            var less := ExposuresOf(groups, Columns(rows', DisputeOf));
            DisputedIn(Amounts(SortedCurrencies(less), less, config), c)
            <= DisputedIn(Amounts(SortedCurrencies(more), more, config), c)
  {
    ExposuresMonotone(groups, Columns(rows', DisputeOf), Columns(rows, DisputeOf), c);
    SummaryDisputes(ExposuresOf(groups, Columns(rows, DisputeOf)), config, c);
    SummaryDisputes(ExposuresOf(groups, Columns(rows', DisputeOf)), config, c);
  }
}
