/** What every row of a report disputes, told from the quantities, prices and issue codes the row
    and its invoice line show. */
module Disputes {
  import opened Prelude
  import opened Ordering
  import opened Domain
  import opened MoneyRounding
  import opened InvoiceHelpers
  import opened ReceiptTotals
  import opened GroupExposure
  import ThreeWay
  import InvoicePo
  import InvoiceReceipt
  import PoReceipt
  import MeetOfModes

  /** Issue codes that put a whole line in dispute. */
  predicate DisputesAll(issues: seq<Issue>) {
    UnknownPo in issues || UnknownItem in issues || DuplicateInvoice in issues
    || SupplierMismatch in issues || CurrencyMismatch in issues
  }

  /** Nothing without an issue, everything when the document itself is in doubt, otherwise one
      amount or the other, as the price verdict says. */
  ghost predicate ByIssues(issues: seq<Issue>, all: Money, atPoPrice: Money, atOwnPrice: Money, disputed: Money) {
    if issues == [] then disputed == 0
    else if DisputesAll(issues) then disputed == all
    else if PriceMismatch in issues then disputed == atPoPrice
    else disputed == atOwnPrice
  }

  lemma Product(q: real, price: Price)
    requires q >= 0.0
    ensures q * price >= 0.0
  {
    PricedMonotone(0.0, q, price);
  }

  /** The disputed amount of a resolved line: with a price mismatch, what the PO price of the
      supported quantity leaves of the billed amount; without, the unsupported quantity at the
      billed price. */
  ghost predicate DisputeTold(
    invoice: InvoiceLine, issues: seq<Issue>, supported: real, poPrice: real, disputed: Money, config: Config)
  {
    var q, price := invoice.quantity, invoice.price;
    && 0.0 <= supported <= q
    && (Product(q, price); Product(q - supported, price);
        ByIssues(
          issues, RoundMoney(q * price, config), RoundMoney(Max(q * price - supported * poPrice, 0.0), config),
          RoundMoney((q - supported) * price, config), disputed))
  }

  lemma FullExposureTold(issues: seq<Issue>)
    ensures FullExposure(issues) <==> DisputesAll(issues)
  {
    if FullExposure(issues) {
      var i :| i in issues && i in FULL_EXPOSURE_ISSUES;
    }
  }

  lemma DisputedByIssues(invoice: InvoiceLine, po: PoLine, supported: real, issues: seq<Issue>, config: Config)
    ensures ByIssues(
              issues, RoundMoney(LineAmount(invoice), config),
              RoundMoney(Uncovered(invoice, supported, po.price), config),
              RoundMoney(Uncovered(invoice, supported, invoice.price), config),
              DisputedAmount(invoice, po, supported, issues, config))
  {
    FullExposureTold(issues);
    RoundZero(config);
  }

  lemma DisputedIsTold(invoice: InvoiceLine, po: PoLine, supported: real, issues: seq<Issue>, config: Config)
    requires 0.0 <= supported <= invoice.quantity
    ensures DisputeTold(
              invoice, issues, supported, po.price, DisputedAmount(invoice, po, supported, issues, config), config)
  {
    DisputedByIssues(invoice, po, supported, issues, config);
    AllTold(invoice, config);
    UncoveredTold(invoice, supported, po.price, config);
    UnsupportedTold(invoice, supported, config);
  }

  lemma AllTold(invoice: InvoiceLine, config: Config)
    ensures invoice.quantity * invoice.price >= 0.0
    ensures RoundMoney(LineAmount(invoice), config) == RoundMoney(invoice.quantity * invoice.price, config)
  {
    assert LineAmount(invoice) == invoice.quantity * invoice.price;
  }

  lemma UncoveredTold(invoice: InvoiceLine, supported: real, accepted: Price, config: Config)
    ensures RoundMoney(Uncovered(invoice, supported, accepted), config)
         == RoundMoney(Max(invoice.quantity * invoice.price - supported * accepted, 0.0), config)
  {
    assert Uncovered(invoice, supported, accepted)
        == Max(invoice.quantity * invoice.price - supported * accepted, 0.0);
  }

  lemma UnsupportedTold(invoice: InvoiceLine, supported: real, config: Config)
    requires 0.0 <= supported <= invoice.quantity
    ensures (invoice.quantity - supported) * invoice.price >= 0.0
    ensures RoundMoney(Uncovered(invoice, supported, invoice.price), config)
         == RoundMoney((invoice.quantity - supported) * invoice.price, config)
  {
    LessProduct(invoice.quantity, supported, invoice.price);
    Product(invoice.quantity - supported, invoice.price);
    assert Uncovered(invoice, supported, invoice.price) == (invoice.quantity - supported) * invoice.price;
  }

  lemma LessProduct(q: real, supported: real, price: Price)
    requires supported <= q
    ensures Max(q * price - supported * price, 0.0) == (q - supported) * price
  {
    assert q * price - supported * price == (q - supported) * price;
    PricedMonotone(0.0, q - supported, price);
  }

  lemma PriceGap(q: Quantity, price: real, poPrice: real)
    ensures q * price - q * poPrice == q * (price - poPrice)
    ensures q * (price - poPrice) >= 0.0 <==> price >= poPrice
  {
  }

  /** So a fully supported line billed above the PO price is disputed for the price difference,
      and one billed below it for nothing. */
  lemma PriceDifference(q: Quantity, price: Price, poPrice: Price, config: Config)
    ensures price >= poPrice ==> q * (price - poPrice) >= 0.0
    ensures RoundMoney(Max(q * price - q * poPrice, 0.0), config)
         == if price >= poPrice then RoundMoney(q * (price - poPrice), config) else 0
  {
    PriceGap(q, price, poPrice);
    RoundZero(config);
    assert Max(q * price - q * poPrice, 0.0) == if price >= poPrice then q * (price - poPrice) else 0.0;
  }

  /** The prices differ by more than the tolerance. */
  predicate PriceIsOff(price: real, poPrice: real, config: Config) {
    price - poPrice > poPrice * config.toleranceRate || poPrice - price > poPrice * config.toleranceRate
  }

  // ----- why a line does not resolve

  /** Some PO line has this number. */
  ghost predicate KnownPo(lines: seq<PoLine>, number: Code) {
    exists po :: po in lines && po.number == number
  }

  /** Some PO line has the number, line and item the invoice line bills. */
  ghost predicate KnownTarget(lines: seq<PoLine>, invoice: InvoiceLine) {
    exists po :: po in lines && po.number == invoice.poNumber && po.line == invoice.poLine && po.item == invoice.item
  }

  lemma {:induction false} ResolvesExactly(invoice: InvoiceLine, lines: seq<PoLine>)
    requires UniquePoKeys(lines)
    ensures Resolve(invoice, OrdersOf(lines)).Resolved? <==> KnownTarget(lines, invoice)
    ensures Resolve(invoice, OrdersOf(lines)) == Unresolved(UnknownPo) <==> !KnownPo(lines, invoice.poNumber)
    ensures Resolve(invoice, OrdersOf(lines)) == Unresolved(UnknownItem) <==>
            KnownPo(lines, invoice.poNumber) && !KnownTarget(lines, invoice)
  {
    if KnownTarget(lines, invoice) {
      var po :| po in lines && po.number == invoice.poNumber && po.line == invoice.poLine && po.item == invoice.item;
      ResolveMeans(invoice, lines, po);
    }
    match Resolve(invoice, OrdersOf(lines))
    case Resolved(po) => ResolveMeans(invoice, lines, po);
    case Unresolved(_) =>
  }

  // ----- the rows of the reports

  predicate Names(invoice: InvoiceLine, po: PoLine) {
    po.number == invoice.poNumber && po.line == invoice.poLine && po.item == invoice.item
  }

  /** A row whose invoice line names this PO line. */
  ghost predicate ResolvedTold(
    invoice: InvoiceLine, po: PoLine, status: Status, issues: seq<Issue>, supported: Option<real>,
    ordered: Option<real>, poPrice: Option<real>, disputed: Money, config: Config)
  {
    && supported.Some? && ordered == Some(po.ordered) && poPrice == Some(po.price)
    && DisputeTold(invoice, issues, supported.value, po.price, disputed, config)
    && (PriceMismatch in issues <==> PriceIsOff(invoice.price, po.price, config))
    && (SupplierMismatch in issues <==> invoice.supplier != po.supplier)
    && (CurrencyMismatch in issues <==> invoice.currency != po.currency)
    && UnknownPo !in issues && UnknownItem !in issues
    && (status == Matched <==> issues == [])
  }

  /** A row whose invoice line names no PO line. */
  ghost predicate UnresolvedTold(
    lines: seq<PoLine>, invoice: InvoiceLine, status: Status, issues: seq<Issue>, supported: Option<real>,
    disputed: Money, config: Config)
  {
    && supported.None? && status == ReviewRequired
    && (UnknownPo in issues <==> !KnownPo(lines, invoice.poNumber))
    && (UnknownItem in issues <==> KnownPo(lines, invoice.poNumber))
    && (Product(invoice.quantity, invoice.price);
        disputed == RoundMoney(invoice.quantity * invoice.price, config))
  }

  ghost predicate RowTold(
    lines: seq<PoLine>, invoice: InvoiceLine, status: Status, issues: seq<Issue>, supported: Option<real>,
    ordered: Option<real>, poPrice: Option<real>, disputed: Money, config: Config)
  {
    && (forall po :: po in lines && Names(invoice, po) ==>
          ResolvedTold(invoice, po, status, issues, supported, ordered, poPrice, disputed, config))
    && (!KnownTarget(lines, invoice) ==> UnresolvedTold(lines, invoice, status, issues, supported, disputed, config))
  }

  ghost predicate ThreeWayTold(lines: seq<PoLine>, row: ThreeWay.ThreeWayResult, config: Config) {
    RowTold(lines, row.invoice, row.status, row.issues, row.supported, row.ordered, row.poPrice, row.disputed, config)
  }

  ghost predicate InvoicePoTold(lines: seq<PoLine>, row: InvoicePo.InvoicePoResult, config: Config) {
    RowTold(lines, row.invoice, row.status, row.issues, row.supported, row.ordered, row.poPrice, row.disputed, config)
  }

  lemma UnresolvedIssues(issue: Issue, duplicate: bool)
    requires issue in {UnknownPo, UnknownItem}
    ensures var issues := OrderIssues(With({}, duplicate, DuplicateInvoice) + {issue});
            && (UnknownPo in issues <==> issue == UnknownPo)
            && (UnknownItem in issues <==> issue == UnknownItem)
  {
    OrderIssuesMembers(With({}, duplicate, DuplicateInvoice) + {issue});
  }

  lemma {:induction false} UnresolvedIsTold(
      lines: seq<PoLine>, invoice: InvoiceLine, issue: Issue, duplicate: bool, config: Config)
    requires UniquePoKeys(lines) && Resolve(invoice, OrdersOf(lines)) == Unresolved(issue)
    ensures !KnownTarget(lines, invoice)
    ensures UnresolvedTold(
              lines, invoice, ReviewRequired, OrderIssues(With({}, duplicate, DuplicateInvoice) + {issue}), None,
              RoundMoney(LineAmount(invoice), config), config)
  {
    ResolvesExactly(invoice, lines);
    UnresolvedIssues(issue, duplicate);
    AllTold(invoice, config);
  }

  /** The issues that the two PO modes find by the same tests. */
  ghost predicate Compared(found: set<Issue>, invoice: InvoiceLine, po: PoLine, config: Config) {
    && (PriceMismatch in found <==> PriceIsOff(invoice.price, po.price, config))
    && (SupplierMismatch in found <==> invoice.supplier != po.supplier)
    && (CurrencyMismatch in found <==> invoice.currency != po.currency)
    && UnknownPo !in found && UnknownItem !in found
  }

  lemma ResolvedIsTold(
      invoice: InvoiceLine, po: PoLine, found: set<Issue>, status: Status, supported: real, config: Config)
    requires 0.0 <= supported <= invoice.quantity && Compared(found, invoice, po, config)
    requires status == if found == {} then Matched else ReviewRequired
    ensures ResolvedTold(
              invoice, po, status, OrderIssues(found), Some(supported), Some(po.ordered), Some(po.price),
              DisputedAmount(invoice, po, supported, OrderIssues(found), config), config)
  {
    OrderIssuesMembers(found);
    DisputedIsTold(invoice, po, supported, OrderIssues(found), config);
  }

  lemma ThreeWayCompared(
      invoice: InvoiceLine, po: PoLine, received: Option<real>, prior: real, duplicate: bool, config: Config)
    ensures Compared(ThreeWay.LineIssues(invoice, po, received, prior, duplicate, config), invoice, po, config)
  {
    ThreeWay.LineIssuesMeaning(invoice, po, received, prior, duplicate, config);
  }

  lemma InvoicePoCompared(invoice: InvoiceLine, po: PoLine, prior: real, duplicate: bool, config: Config)
    ensures Compared(InvoicePo.LineIssues(invoice, po, prior, duplicate, config), invoice, po, config)
  {
  }

  lemma {:induction false} OnlyNamed(lines: seq<PoLine>, invoice: InvoiceLine, po: PoLine)
    requires UniquePoKeys(lines) && Resolve(invoice, OrdersOf(lines)) == Resolved(po)
    ensures forall other :: other in lines && Names(invoice, other) ==> other == po
    ensures KnownTarget(lines, invoice)
  {
    ResolvesExactly(invoice, lines);
    forall other | other in lines && Names(invoice, other) ensures other == po {
      ResolveMeans(invoice, lines, other);
    }
  }

  lemma {:induction false} ThreeWayLineTold(
      lines: seq<PoLine>, invoice: InvoiceLine, receipts: seq<Receipt>, before: seq<Group>, duplicate: bool,
      allowed: bool, config: Config)
    requires UniquePoKeys(lines)
    ensures ThreeWayTold(
              lines, ThreeWay.LineResult(invoice, OrdersOf(lines), receipts, before, duplicate, allowed, config),
              config)
  {
    match Resolve(invoice, OrdersOf(lines))
    case Unresolved(issue) => UnresolvedIsTold(lines, invoice, issue, duplicate, config);
    case Resolved(po) =>
      var prior := Prior(before, OrdersOf(lines), PoKeyOf(invoice));
      var received := ThreeWay.ReceivedFor(receipts, po);
      var found := ThreeWay.LineIssues(invoice, po, received, prior, duplicate, config);
      OnlyNamed(lines, invoice, po);
      ThreeWayCompared(invoice, po, received, prior, duplicate, config);
      OrderIssuesMembers(found);
      ResolvedIsTold(
        invoice, po, found, StatusOf(OrderIssues(found)),
        ThreeWay.SupportedQuantity(invoice.quantity, po.ordered, received, prior, allowed), config);
  }

  lemma {:induction false} InvoicePoLineTold(
      lines: seq<PoLine>, invoice: InvoiceLine, before: seq<Group>, duplicate: bool, ambiguous: bool, config: Config)
    requires UniquePoKeys(lines)
    ensures InvoicePoTold(
              lines, InvoicePo.LineResult(invoice, OrdersOf(lines), before, duplicate, ambiguous, config), config)
  {
    match Resolve(invoice, OrdersOf(lines))
    case Unresolved(issue) => UnresolvedIsTold(lines, invoice, issue, duplicate, config);
    case Resolved(po) =>
      var prior := Prior(before, OrdersOf(lines), PoKeyOf(invoice));
      var found := InvoicePo.LineIssues(invoice, po, prior, duplicate, config);
      OnlyNamed(lines, invoice, po);
      InvoicePoCompared(invoice, po, prior, duplicate, config);
      ResolvedIsTold(
        invoice, po, found, if found != {} then ReviewRequired else Matched,
        InvoicePo.SupportedQuantity(invoice.quantity, po.ordered, prior, ambiguous), config);
  }

  /** Every row of a three-way report on accepted PO lines. */
  lemma {:induction false} ThreeWayRowsTold(
      lines: seq<PoLine>, receipts: seq<Receipt>, invoices: seq<InvoiceLine>, config: Config, k: nat)
    requires UniquePoKeys(lines) && k < |invoices|
    ensures var results := ThreeWay.Report(lines, receipts, invoices, config).results;
            |results| == |invoices| && ThreeWayTold(lines, results[k], config)
  {
    var groups := GroupsOf(invoices);
    var shape := ShapeOf(groups);
    GroupsElements(invoices);
    FlattenLength(groups, shape);
    MeetOfModes.RowsAt(groups, OrdersOf(lines), receipts, config, shape, k);
    var (i, j) := Locate(shape, k);
    ThreeWayLineTold(
      lines, groups[i][j], receipts, groups[..i], |groups[i]| > 1, !Ambiguous(groups[i]), config);
  }

  /** And of an invoice-PO report. */
  lemma {:induction false} InvoicePoRowsTold(lines: seq<PoLine>, invoices: seq<InvoiceLine>, config: Config, k: nat)
    requires UniquePoKeys(lines) && k < |invoices|
    ensures var results := InvoicePo.Report(lines, invoices, config).results;
            |results| == |invoices| && InvoicePoTold(lines, results[k], config)
  {
    var groups := GroupsOf(invoices);
    var shape := ShapeOf(groups);
    GroupsElements(invoices);
    FlattenLength(groups, shape);
    MeetOfModes.RowsAt(groups, OrdersOf(lines), [], config, shape, k);
    var (i, j) := Locate(shape, k);
    InvoicePoLineTold(lines, groups[i][j], groups[..i], |groups[i]| > 1, Ambiguous(groups[i]), config);
  }

  // ----- the invoice-receipt mode

  /** Some receipt names what the invoice line bills. */
  ghost predicate HasItsReceipt(receipts: seq<Receipt>, invoice: InvoiceLine) {
    exists r :: r in receipts
      && r.poNumber == invoice.poNumber && r.poLine == invoice.poLine && r.item == invoice.item
  }

  /** Some receipt names the same PO line, with whatever item. */
  ghost predicate HasAnyReceipt(receipts: seq<Receipt>, invoice: InvoiceLine) {
    exists r :: r in receipts && r.poNumber == invoice.poNumber && r.poLine == invoice.poLine
  }

  /** The unsupported amount is the billed price of the unsupported quantity, or of the whole
      quantity on a duplicate row. */
  ghost predicate AmountTold(
    invoice: InvoiceLine, duplicate: bool, supported: real, unsupported: Money, config: Config)
  {
    var q, price := invoice.quantity, invoice.price;
    && 0.0 <= supported <= q
    && (Product(q, price); Product(q - supported, price);
        unsupported
        == if duplicate then RoundMoney(q * price, config) else RoundMoney((q - supported) * price, config))
  }

  ghost predicate ReceiptRowTold(receipts: seq<Receipt>, row: InvoiceReceipt.InvoiceReceiptResult, config: Config) {
    && AmountTold(row.invoice, DuplicateInvoice in row.issues, row.supported, row.unsupported, config)
    && (MissingReceipt in row.issues <==> !HasItsReceipt(receipts, row.invoice))
    && (ReceiptItemMismatch in row.issues <==>
          !HasItsReceipt(receipts, row.invoice) && HasAnyReceipt(receipts, row.invoice))
    && (QuantityExceedsReceipt in row.issues <==>
          HasItsReceipt(receipts, row.invoice) && row.previous + row.invoice.quantity > row.received)
    && (row.status == Matched <==> row.issues == [])
  }

  lemma ReceiptIssues(invoice: InvoiceLine, receipts: seq<Receipt>, prior: real, duplicate: bool)
    ensures var found := InvoiceReceipt.LineIssues(invoice, receipts, prior, duplicate);
            && (DuplicateInvoice in found <==> duplicate)
            && (MissingReceipt in found <==> !HasItsReceipt(receipts, invoice))
            && (ReceiptItemMismatch in found <==>
                  !HasItsReceipt(receipts, invoice) && HasAnyReceipt(receipts, invoice))
            && (QuantityExceedsReceipt in found <==>
                  HasItsReceipt(receipts, invoice)
                  && prior + invoice.quantity > Received(receipts, TargetOf(invoice)).GetOr(0.0))
  {
    assert HasReceipt(receipts, TargetOf(invoice)) <==> HasItsReceipt(receipts, invoice);
    assert InvoiceReceipt.Referenced(receipts, invoice) <==> HasAnyReceipt(receipts, invoice);
  }

  lemma {:induction false} ReceiptLineTold(
      invoice: InvoiceLine, receipts: seq<Receipt>, before: seq<Group>, duplicate: bool, ambiguous: bool,
      config: Config)
    ensures ReceiptRowTold(
              receipts, InvoiceReceipt.LineResult(invoice, receipts, before, duplicate, ambiguous, config), config)
  {
    var prior := InvoiceReceipt.Prior(before, receipts, TargetOf(invoice));
    var row := InvoiceReceipt.LineResult(invoice, receipts, before, duplicate, ambiguous, config);
    ReceiptIssues(invoice, receipts, prior, duplicate);
    OrderIssuesMembers(InvoiceReceipt.LineIssues(invoice, receipts, prior, duplicate));
    UnsupportedAmountTold(invoice, row.supported, duplicate, config);
  }

  lemma UnsupportedAmountTold(invoice: InvoiceLine, supported: real, duplicate: bool, config: Config)
    requires 0.0 <= supported <= invoice.quantity
    ensures AmountTold(
              invoice, duplicate, supported,
              RoundMoney(InvoiceReceipt.UnsupportedAmount(invoice, supported, duplicate), config), config)
  {
    Product(invoice.quantity, invoice.price);
    Product(invoice.quantity - supported, invoice.price);
    assert InvoiceReceipt.UnsupportedAmount(invoice, supported, duplicate)
        == if duplicate then invoice.quantity * invoice.price else (invoice.quantity - supported) * invoice.price;
  }

  /** Every row of an invoice-receipt report. */
  lemma {:induction false} ReceiptRowsTold(receipts: seq<Receipt>, invoices: seq<InvoiceLine>, config: Config, k: nat)
    requires k < |invoices|
    ensures var results := InvoiceReceipt.Report(receipts, invoices, config).results;
            |results| == |invoices| && ReceiptRowTold(receipts, results[k], config)
  {
    var groups := GroupsOf(invoices);
    var shape := ShapeOf(groups);
    GroupsElements(invoices);
    FlattenLength(groups, shape);
    MeetOfModes.RowsAt(groups, OrdersOf([]), receipts, config, shape, k);
    var (i, j) := Locate(shape, k);
    ReceiptLineTold(groups[i][j], receipts, groups[..i], |groups[i]| > 1, Ambiguous(groups[i]), config);
  }

  // ----- the receiving mode

  /** A missing or extra quantity at the PO price. */
  ghost predicate Valued(quantity: real, price: Price, amount: Money, config: Config) {
    quantity >= 0.0 && (Product(quantity, price); amount == RoundMoney(quantity * price, config))
  }

  lemma ShortfallValued(wanted: real, got: real, price: Price, config: Config)
    ensures Valued(Max(wanted - got, 0.0), price, RoundMoney(Priced(PoReceipt.Shortfall(wanted, got), price), config),
                   config)
  {
    Product(Max(wanted - got, 0.0), price);
    assert Priced(PoReceipt.Shortfall(wanted, got), price) == Max(wanted - got, 0.0) * price;
  }

  /** What is still outstanding on a PO line, and what was received in excess, is valued at the PO
      price. */
  lemma {:induction false} FulfillmentValued(po: PoLine, receipts: seq<Receipt>, config: Config)
    ensures var row := PoReceipt.FulfillmentOf(po, receipts, config);
            && Valued(Max(po.ordered - row.received, 0.0), po.price, row.outstandingValue, config)
            && Valued(Max(row.received - po.ordered, 0.0), po.price, row.excessValue, config)
  {
    var received := ThreeWay.ReceivedFor(receipts, po).GetOr(0.0);
    ShortfallValued(po.ordered, received, po.price, config);
    ShortfallValued(received, po.ordered, po.price, config);
  }

  /** Some PO line has the number and line the receipt names, with whatever item. */
  ghost predicate KnownLine(lines: seq<PoLine>, receipt: Receipt) {
    exists po :: po in lines && po.number == receipt.poNumber && po.line == receipt.poLine
  }

  ghost predicate KnownReceipt(lines: seq<PoLine>, receipt: Receipt) {
    exists po :: po in lines
      && po.number == receipt.poNumber && po.line == receipt.poLine && po.item == receipt.item
  }

  /** Why a receipt is an orphan: no such PO, no such line of it, or another item on that line. */
  lemma {:induction false} OrphanedExactly(receipt: Receipt, lines: seq<PoLine>)
    requires UniquePoKeys(lines)
    ensures var issue := PoReceipt.OrphanIssue(receipt, OrdersOf(lines));
            && (issue == Some(UnknownPo) <==> !KnownPo(lines, receipt.poNumber))
            && (issue == Some(UnknownItem) <==> KnownPo(lines, receipt.poNumber) && !KnownLine(lines, receipt))
            && (issue == Some(ReceiptItemMismatch) <==> KnownLine(lines, receipt) && !KnownReceipt(lines, receipt))
            && (issue == None <==> KnownReceipt(lines, receipt))
  {
    OrdersValid(lines);
    IndexMembers(lines, PoReceipt.ReceiptPoKey(receipt));
    forall po | po in lines && po.number == receipt.poNumber && po.line == receipt.poLine
      ensures PoReceipt.ReceiptPoKey(receipt) in IndexOf(lines)
      ensures IndexOf(lines)[PoReceipt.ReceiptPoKey(receipt)] == po
    {
      IndexComplete(lines, po);
    }
  }

  /** Summed over the rows in a currency. */
  function OutstandingIn(results: seq<PoReceipt.PoReceiptResult>, currency: Code): nat {
    if results == [] then 0
    else
      var n := |results| - 1;
      OutstandingIn(results[..n], currency)
      + if results[n].po.currency == currency then results[n].outstandingValue else 0
  }

  function ExcessIn(results: seq<PoReceipt.PoReceiptResult>, currency: Code): nat {
    if results == [] then 0
    else
      var n := |results| - 1;
      ExcessIn(results[..n], currency)
      + if results[n].po.currency == currency then results[n].excessValue else 0
  }

  lemma {:induction false} ValuesSummed(results: seq<PoReceipt.PoReceiptResult>, currency: Code)
    ensures TotalFor(PoReceipt.ValuesOf(results, PoReceipt.OutstandingExposure), currency)
         == OutstandingIn(results, currency)
    ensures TotalFor(PoReceipt.ValuesOf(results, PoReceipt.ExcessExposure), currency) == ExcessIn(results, currency)
  {
    if results != [] {
      var n := |results| - 1;
      ValuesSummed(results[..n], currency);
      assert PoReceipt.ValuesOf(results, PoReceipt.OutstandingExposure)[..n]
          == PoReceipt.ValuesOf(results[..n], PoReceipt.OutstandingExposure);
      assert PoReceipt.ValuesOf(results, PoReceipt.ExcessExposure)[..n]
          == PoReceipt.ValuesOf(results[..n], PoReceipt.ExcessExposure);
    }
  }

  lemma LastListed(before: seq<CurrencyAmount>, last: CurrencyAmount, currency: Code)
    ensures DisputedIn(before + [last], currency)
         == if last.currency == currency then last.amount else DisputedIn(before, currency)
  {
    assert (before + [last])[..|before|] == before;
  }

  lemma {:induction false} NonZeroMeaning(currencies: seq<Code>, exposures: seq<Exposure>, currency: Code)
    ensures DisputedIn(PoReceipt.NonZero(currencies, exposures), currency)
         == if currency in currencies then TotalFor(exposures, currency) else 0
  {
    if currencies != [] {
      var n := |currencies| - 1;
      var before, total := PoReceipt.NonZero(currencies[..n], exposures), TotalFor(exposures, currencies[n]);
      NonZeroMeaning(currencies[..n], exposures, currency);
      assert currencies == currencies[..n] + [currencies[n]];
      if total == 0 {
        assert PoReceipt.NonZero(currencies, exposures) == before;
      } else {
        assert PoReceipt.NonZero(currencies, exposures) == before + [CurrencyAmount(currencies[n], total)];
        LastListed(before, CurrencyAmount(currencies[n], total), currency);
      }
    }
  }

  lemma NonZeroTotals(exposures: seq<Exposure>, currency: Code)
    ensures DisputedIn(PoReceipt.NonZero(SortedCurrencies(exposures), exposures), currency)
         == TotalFor(exposures, currency)
  {
    NonZeroMeaning(SortedCurrencies(exposures), exposures, currency);
    SortMembers(CurrenciesOf(exposures), CurrencyKey);
    CurrenciesMeaning(exposures, currency);
  }

  /** The receiving summary reports, for every currency, what its rows add up to. */
  lemma {:induction false} ReceivingTotals(lines: seq<PoLine>, receipts: seq<Receipt>, config: Config, currency: Code)
    ensures var report := PoReceipt.Report(lines, receipts, config);
            && DisputedIn(report.summary.outstandingValues, currency) == OutstandingIn(report.results, currency)
            && DisputedIn(report.summary.excessValues, currency) == ExcessIn(report.results, currency)
  {
    var results := PoReceipt.Report(lines, receipts, config).results;
    ValuesSummed(results, currency);
    NonZeroTotals(PoReceipt.ValuesOf(results, PoReceipt.OutstandingExposure), currency);
    NonZeroTotals(PoReceipt.ValuesOf(results, PoReceipt.ExcessExposure), currency);
  }
}
