/** Invoice-to-receipt analysis: received capacity keyed by PO number, PO line and item. */
module InvoiceReceipt {
  import opened Prelude
  import opened Ordering
  import opened Domain
  import opened MoneyRounding
  import opened InvoiceHelpers
  import opened ReceiptTotals
  import opened GroupExposure

  /** A result row; `invoice` holds the ten invoice fields the row repeats. */
  datatype InvoiceReceiptResult = InvoiceReceiptResult(
    invoice: InvoiceLine, status: Status, issues: seq<Issue>, previous: real,
    supported: real, received: real, unsupported: Money)

  datatype InvoiceReceiptReport = InvoiceReceiptReport(results: seq<InvoiceReceiptResult>, summary: Summary)

  // ----- specification

  /** Received capacity an unambiguous group takes from a target that has receipts. */
  function Share(group: Group, receipts: seq<Receipt>, target: Target): (r: real)
    ensures r >= 0.0
  {
    if !Ambiguous(group) && TargetOf(group[0]) == target && HasReceipt(receipts, target)
    then MaxQuantity(group) else 0.0
  }

  function Prior(before: seq<Group>, receipts: seq<Receipt>, target: Target): (r: real)
    ensures r >= 0.0
  {
    if before == [] then 0.0
    else Prior(before[..|before| - 1], receipts, target) + Share(before[|before| - 1], receipts, target)
  }

  /** Some receipt names the PO line, with whatever item. */
  predicate Referenced(receipts: seq<Receipt>, invoice: InvoiceLine) {
    exists r :: r in receipts && r.poNumber == invoice.poNumber && r.poLine == invoice.poLine
  }

  function LineIssues(
    invoice: InvoiceLine, receipts: seq<Receipt>, prior: real, duplicate: bool): set<Issue>
  {
    var received := Received(receipts, TargetOf(invoice));
    var i0 := With({}, duplicate, DuplicateInvoice);
    var i1 := With(i0, received.None?, MissingReceipt);
    var i2 := With(i1, received.None? && Referenced(receipts, invoice), ReceiptItemMismatch);
    With(i2, received.Some? && prior + invoice.quantity > received.value, QuantityExceedsReceipt)
  }

  /** The amount of an invoice line that its receipts do not cover. */
  function UnsupportedAmount(invoice: InvoiceLine, supported: real, duplicate: bool): (r: real)
    requires supported <= invoice.quantity
    ensures r >= 0.0
  {
    Priced(if duplicate then invoice.quantity else invoice.quantity - supported, invoice.price)
  }

  /** The result row of one invoice line, given the groups walked before its own. */
  function LineResult(
    invoice: InvoiceLine, receipts: seq<Receipt>, before: seq<Group>, duplicate: bool, ambiguous: bool,
    config: Config): InvoiceReceiptResult
  {
    var target := TargetOf(invoice);
    var prior := Prior(before, receipts, target);
    var received := Received(receipts, target).GetOr(0.0);
    var found := LineIssues(invoice, receipts, prior, duplicate);
    var supported := if ambiguous then 0.0 else Min(invoice.quantity, Max(received - prior, 0.0));
    InvoiceReceiptResult(
      invoice, if found != {} then ReviewRequired else Matched, OrderIssues(found), prior,
      supported, received, RoundMoney(UnsupportedAmount(invoice, supported, duplicate), config))
  }

  function GroupResults(group: Group, receipts: seq<Receipt>, before: seq<Group>, config: Config)
    : (rows: seq<InvoiceReceiptResult>)
    ensures |rows| == |group|
  {
    seq(|group|, j requires 0 <= j < |group| =>
      LineResult(group[j], receipts, before, |group| > 1, Ambiguous(group), config))
  }

  function RowsOf(groups: seq<Group>, receipts: seq<Receipt>, config: Config)
    : (rows: seq<seq<InvoiceReceiptResult>>)
    ensures |rows| == |groups|
    ensures forall i :: 0 <= i < |groups| ==> rows[i] == GroupResults(groups[i], receipts, groups[..i], config)
  {
    seq(|groups|, i requires 0 <= i < |groups| => GroupResults(groups[i], receipts, groups[..i], config))
  }

  function UnsupportedOf(row: InvoiceReceiptResult): Money {
    row.unsupported
  }

  function OutcomeOf(row: InvoiceReceiptResult): Outcome {
    Outcome(row.status, row.issues)
  }

  function ReportOf(groups: seq<Group>, invoices: seq<InvoiceLine>, receipts: seq<Receipt>, config: Config)
    : InvoiceReceiptReport
  {
    var rows := RowsOf(groups, receipts, config);
    var results := Flatten(rows);
    InvoiceReceiptReport(
      results,
      SummaryOf(invoices, OutcomesOf(results, OutcomeOf), ExposuresOf(groups, Columns(rows, UnsupportedOf)), config))
  }

  function Report(receipts: seq<Receipt>, invoices: seq<InvoiceLine>, config: Config): InvoiceReceiptReport {
    ReportOf(GroupsOf(invoices), invoices, receipts, config)
  }

  // ----- the analysis loops

  function ReceiptKey(receipt: Receipt): Key {
    [receipt.receiptId as real, receipt.line as real]
  }

  /** The receipt dictionary and reference set describe these receipts. */
  ghost predicate TotalsAgree(
    totals: map<Target, real>, references: set<(Code, int)>, receipts: seq<Receipt>)
  {
    && (forall t :: Received(receipts, t) == if t in totals then Some(totals[t]) else None)
    && (forall p, l :: (p, l) in references <==> exists r :: r in receipts && r.poNumber == p && r.poLine == l)
  }

  ghost predicate TargetConsumedAgrees(consumed: map<Target, real>, receipts: seq<Receipt>, before: seq<Group>) {
    forall t :: Lookup(consumed, t) == Prior(before, receipts, t)
  }

  lemma TotalsStep(
      totals: map<Target, real>, references: set<(Code, int)>, receipts: seq<Receipt>, receipt: Receipt)
    requires TotalsAgree(totals, references, receipts)
    ensures var t := ReceiptTarget(receipt);
            TotalsAgree(totals[t := Lookup(totals, t) + receipt.received],
                        references + {(receipt.poNumber, receipt.poLine)}, receipts + [receipt])
  {
    var after := totals[ReceiptTarget(receipt) := Lookup(totals, ReceiptTarget(receipt)) + receipt.received];
    forall t ensures Received(receipts + [receipt], t) == if t in after then Some(after[t]) else None {
      assert Received(receipts, t) == if t in totals then Some(totals[t]) else None;
      ReceivedOneMore(receipts, receipt, t);
    }
  }

  lemma ReceivedOneMore(receipts: seq<Receipt>, receipt: Receipt, t: Target)
    ensures Received(receipts + [receipt], t)
         == if t == ReceiptTarget(receipt) then Some(Received(receipts, t).GetOr(0.0) + receipt.received)
            else Received(receipts, t)
  {
    var all := receipts + [receipt];
    assert all[..|receipts|] == receipts && all[..|all|] == all;
    ReceivedSnoc(all, |receipts|, t);
    if !HasReceipt(receipts, t) {
      NothingReceived(receipts, t);
    }
  }

  method SumReceipts(receipts: seq<Receipt>) returns (totals: map<Target, real>, references: set<(Code, int)>)
    ensures TotalsAgree(totals, references, receipts)
  {
    var rows := SortBy(receipts, ReceiptKey);
    SortByCorrect(receipts, ReceiptKey);
    totals, references := SumRows(rows);
    SameReceiptsAgree(totals, references, rows, receipts);
  }

  method SumRows(rows: seq<Receipt>) returns (totals: map<Target, real>, references: set<(Code, int)>)
    ensures TotalsAgree(totals, references, rows)
  {
    totals, references := map[], {};
    for n := 0 to |rows|
      invariant TotalsAgree(totals, references, rows[..n])
    {
      var receipt := rows[n];
      var target := ReceiptTarget(receipt);
      TotalsStep(totals, references, rows[..n], receipt);
      assert rows[..n] + [receipt] == rows[..n + 1];
      totals := totals[target := Lookup(totals, target) + receipt.received];
      references := references + {(receipt.poNumber, receipt.poLine)};
    }
    assert rows[..|rows|] == rows;
  }

  lemma SameReceiptsAgree(
      totals: map<Target, real>, references: set<(Code, int)>, a: seq<Receipt>, b: seq<Receipt>)
    requires multiset(a) == multiset(b) && TotalsAgree(totals, references, a)
    ensures TotalsAgree(totals, references, b)
  {
    forall t ensures Received(a, t) == Received(b, t) {
      ReceivedOrderIndependent(a, b, t);
    }
    assert forall r :: r in a <==> r in b by {
      assert forall r :: r in a <==> r in multiset(a);
      assert forall r :: r in b <==> r in multiset(b);
    }
  }

  method FindIssues(
      invoice: InvoiceLine, totals: map<Target, real>, references: set<(Code, int)>, previous: real,
      duplicate: bool, ghost receipts: seq<Receipt>) returns (issues: set<Issue>)
    requires TotalsAgree(totals, references, receipts)
    ensures issues == LineIssues(invoice, receipts, previous, duplicate)
  {
    var key := TargetOf(invoice);
    assert Received(receipts, key) == if key in totals then Some(totals[key]) else None;
    issues := if duplicate then {DuplicateInvoice} else {};
    assert issues == With({}, duplicate, DuplicateInvoice);
    if key !in totals {
      issues := issues + {MissingReceipt};
      if (key.poNumber, key.poLine) in references {
        issues := issues + {ReceiptItemMismatch};
      }
    } else if previous + invoice.quantity > totals[key] {
      issues := issues + {QuantityExceedsReceipt};
    }
  }

  method AnalyzeLine(
      invoice: InvoiceLine, totals: map<Target, real>, references: set<(Code, int)>, consumed: map<Target, real>,
      duplicate: bool, ambiguous: bool, config: Config, ghost receipts: seq<Receipt>, ghost before: seq<Group>)
      returns (result: InvoiceReceiptResult)
    requires TotalsAgree(totals, references, receipts) && TargetConsumedAgrees(consumed, receipts, before)
    ensures result == LineResult(invoice, receipts, before, duplicate, ambiguous, config)
  {
    var key := TargetOf(invoice);
    var previous, received := Lookup(consumed, key), Lookup(totals, key);
    assert Received(receipts, key) == if key in totals then Some(totals[key]) else None;
    var issues := FindIssues(invoice, totals, references, previous, duplicate, receipts);
    var supported := if ambiguous then 0.0 else Min(invoice.quantity, Max(received - previous, 0.0));
    result := InvoiceReceiptResult(
      invoice, if issues != {} then ReviewRequired else Matched, OrderIssues(issues), previous,
      supported, received, RoundMoney(UnsupportedAmount(invoice, supported, duplicate), config));
  }

  method AnalyzeGroup(
      group: Group, totals: map<Target, real>, references: set<(Code, int)>, consumed: map<Target, real>,
      config: Config, ghost receipts: seq<Receipt>, ghost before: seq<Group>)
      returns (rows: seq<InvoiceReceiptResult>, ambiguous: bool)
    requires TotalsAgree(totals, references, receipts) && TargetConsumedAgrees(consumed, receipts, before)
    ensures rows == GroupResults(group, receipts, before, config)
    ensures ambiguous == Ambiguous(group)
  {
    ambiguous := Ambiguous(group);
    rows := [];
    for j := 0 to |group|
      invariant rows == GroupResults(group, receipts, before, config)[..j]
    {
      var row := AnalyzeLine(
        group[j], totals, references, consumed, |group| > 1, ambiguous, config, receipts, before);
      rows := rows + [row];
    }
  }

  lemma TargetConsumedOne(
      consumed: map<Target, real>, receipts: seq<Receipt>, groups: seq<Group>, i: nat, after: map<Target, real>)
    requires i < |groups| && TargetConsumedAgrees(consumed, receipts, groups[..i])
    requires forall t :: Lookup(after, t) == Lookup(consumed, t) + Share(groups[i], receipts, t)
    ensures TargetConsumedAgrees(after, receipts, groups[..i + 1])
  {
    assert groups[..i + 1][..i] == groups[..i];
  }

  method ConsumeReceived(
      group: Group, ambiguous: bool, totals: map<Target, real>, references: set<(Code, int)>,
      consumed: map<Target, real>, ghost receipts: seq<Receipt>) returns (after: map<Target, real>)
    requires TotalsAgree(totals, references, receipts) && ambiguous == Ambiguous(group)
    ensures forall t :: Lookup(after, t) == Lookup(consumed, t) + Share(group, receipts, t)
  {
    after := consumed;
    var target := TargetOf(group[0]);
    assert Received(receipts, target) == if target in totals then Some(totals[target]) else None;
    if !ambiguous && target in totals {
      after := consumed[target := Lookup(consumed, target) + MaxQuantity(group)];
    }
  }

  method WalkGroups(groups: seq<Group>, totals: map<Target, real>, references: set<(Code, int)>, config: Config,
      ghost receipts: seq<Receipt>) returns (results: seq<InvoiceReceiptResult>, exposures: seq<Exposure>)
    requires TotalsAgree(totals, references, receipts)
    ensures var all := RowsOf(groups, receipts, config);
            results == Flatten(all) && exposures == ExposuresOf(groups, Columns(all, UnsupportedOf))
  {
    var consumed: map<Target, real> := map[];
    results, exposures := [], [];
    ghost var all := RowsOf(groups, receipts, config);
    for i := 0 to |groups|
      invariant TargetConsumedAgrees(consumed, receipts, groups[..i])
      invariant Walked(groups, all, UnsupportedOf, i, results, exposures)
    {
      var group := groups[i];
      var rows, ambiguous := AnalyzeGroup(group, totals, references, consumed, config, receipts, groups[..i]);
      var largest := Largest(rows, UnsupportedOf);
      var after := ConsumeReceived(group, ambiguous, totals, references, consumed, receipts);
      TargetConsumedOne(consumed, receipts, groups, i, after);
      WalkedOne(groups, all, UnsupportedOf, i, results, exposures);
      results := results + rows;
      exposures := exposures + [Exposure(group[0].currency, largest)];
      consumed := after;
    }
    assert groups[..|groups|] == groups && all[..|all|] == all;
  }

  method AnalyzeInvoiceReceipt(receipts: seq<Receipt>, invoices: seq<InvoiceLine>, config: Config)
      returns (report: InvoiceReceiptReport)
    ensures report == Report(receipts, invoices, config)
  {
    var totals, references := SumReceipts(receipts);
    var groups := GroupInvoices(invoices);
    var results, exposures := WalkGroups(groups, totals, references, config, receipts);
    var summary := Summarize(invoices, OutcomesOf(results, OutcomeOf), exposures, config);
    report := InvoiceReceiptReport(results, summary);
  }
}
