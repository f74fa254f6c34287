/** Receiving analysis: fulfillment of PO lines and receipts that fit none of them. */
module PoReceipt {
  import opened Prelude
  import opened Ordering
  import opened Domain
  import opened MoneyRounding
  import opened InvoiceHelpers
  import opened ReceiptTotals
  import opened GroupExposure
  import opened InvoiceReceipt
  import ThreeWay

  datatype Fulfillment = FullyReceived | PartiallyReceived | NotReceived | Overdelivered

  const FULFILLMENTS: seq<Fulfillment> := [FullyReceived, PartiallyReceived, NotReceived, Overdelivered]

  /** A fulfillment row; `po` holds the PO fields the row repeats. */
  datatype PoReceiptResult = PoReceiptResult(
    po: PoLine, status: Fulfillment, received: real, outstanding: real, excess: real,
    outstandingValue: Money, excessValue: Money)

  /** An unresolved receipt; `receipt` holds the receipt fields the row repeats. */
  datatype OrphanReceipt = OrphanReceipt(receipt: Receipt, issue: Issue)

  datatype PoReceiptSummary = PoReceiptSummary(
    purchaseOrders: nat, poLines: nat, receiptLines: nat, statusCounts: seq<(Fulfillment, nat)>,
    orphanLines: nat, outstandingValues: seq<CurrencyAmount>, excessValues: seq<CurrencyAmount>)

  datatype PoReceiptReport = PoReceiptReport(
    results: seq<PoReceiptResult>, orphans: seq<OrphanReceipt>, summary: PoReceiptSummary)

  // ----- specification

  function ReceiptPoKey(receipt: Receipt): PoKey {
    PoKey(receipt.poNumber, receipt.poLine)
  }

  /** Why a receipt fits no PO line, if it fits none. */
  function OrphanIssue(receipt: Receipt, orders: Orders): Option<Issue> {
    if receipt.poNumber !in orders.numbers then Some(UnknownPo)
    else if ReceiptPoKey(receipt) !in orders.index then Some(UnknownItem)
    else if orders.index[ReceiptPoKey(receipt)].item != receipt.item then Some(ReceiptItemMismatch)
    else None
  }

  function OrphansOf(receipts: seq<Receipt>, orders: Orders): seq<OrphanReceipt> {
    if receipts == [] then []
    else
      var last := receipts[|receipts| - 1];
      OrphansOf(receipts[..|receipts| - 1], orders)
      + if OrphanIssue(last, orders).Some? then [OrphanReceipt(last, OrphanIssue(last, orders).value)] else []
  }

  function Shortfall(ordered: real, received: real): (r: Price) {
    Max(ordered - received, 0.0)
  }

  function StatusOfLine(received: real, outstanding: real, excess: real): Fulfillment {
    if received == 0.0 then NotReceived
    else if excess != 0.0 then Overdelivered
    else if outstanding != 0.0 then PartiallyReceived
    else FullyReceived
  }

  function FulfillmentOf(po: PoLine, receipts: seq<Receipt>, config: Config): PoReceiptResult {
    var received := ThreeWay.ReceivedFor(receipts, po).GetOr(0.0);
    var outstanding, excess := Shortfall(po.ordered, received), Shortfall(received, po.ordered);
    PoReceiptResult(
      po, StatusOfLine(received, outstanding, excess), received, outstanding, excess,
      RoundMoney(Priced(outstanding, po.price), config), RoundMoney(Priced(excess, po.price), config))
  }

  /** Keys of the PO dictionary in insertion order. */
  function KeysOf(lines: seq<PoLine>): seq<PoKey> {
    if lines == [] then []
    else
      var before := KeysOf(lines[..|lines| - 1]);
      var k := KeyOfPo(lines[|lines| - 1]);
      if k in before then before else before + [k]
  }

  function PoSortKey(k: PoKey): Key {
    [k.number as real, k.line as real]
  }

  function SortedKeys(lines: seq<PoLine>): (keys: seq<PoKey>) {
    SortBy(KeysOf(lines), PoSortKey)
  }

  lemma {:induction false} KeysMeaning(lines: seq<PoLine>)
    ensures forall k :: k in KeysOf(lines) <==> k in IndexOf(lines)
    ensures forall i, j :: 0 <= i < j < |KeysOf(lines)| ==> KeysOf(lines)[i] != KeysOf(lines)[j]
  {
    if lines != [] {
      KeysMeaning(lines[..|lines| - 1]);
    }
  }

  lemma SortedKeysMeaning(lines: seq<PoLine>)
    ensures forall k :: k in SortedKeys(lines) <==> k in IndexOf(lines)
    ensures forall i, j :: 0 <= i < j < |SortedKeys(lines)| ==> SortedKeys(lines)[i] != SortedKeys(lines)[j]
  {
    KeysMeaning(lines);
    var keys, sorted := KeysOf(lines), SortedKeys(lines);
    SortByCorrect(keys, PoSortKey);
    forall k ensures k in sorted <==> k in keys {
      assert k in sorted <==> k in multiset(sorted);
      assert k in keys <==> k in multiset(keys);
    }
    forall i, j | 0 <= i < j < |sorted| ensures sorted[i] != sorted[j] {
      if sorted[i] == sorted[j] {
        OccursTwice(sorted, i, j);
        DistinctOnce(keys, sorted[i]);
      }
    }
  }

  function ResultsOf(keys: seq<PoKey>, orders: Orders, receipts: seq<Receipt>, config: Config): seq<PoReceiptResult>
    requires forall k :: k in keys ==> k in orders.index
  {
    if keys == [] then []
    else
      var n := |keys| - 1;
      ResultsOf(keys[..n], orders, receipts, config) + [FulfillmentOf(orders.index[keys[n]], receipts, config)]
  }

  function StatusTotal(results: seq<PoReceiptResult>, status: Fulfillment): nat {
    if results == [] then 0
    else StatusTotal(results[..|results| - 1], status) + if results[|results| - 1].status == status then 1 else 0
  }

  function OutstandingExposure(row: PoReceiptResult): Exposure {
    Exposure(row.po.currency, row.outstandingValue)
  }

  function ExcessExposure(row: PoReceiptResult): Exposure {
    Exposure(row.po.currency, row.excessValue)
  }

  function ValuesOf(results: seq<PoReceiptResult>, value: PoReceiptResult -> Exposure): (r: seq<Exposure>)
    ensures |r| == |results|
    ensures forall i :: 0 <= i < |results| ==> r[i] == value(results[i])
  {
    seq(|results|, i requires 0 <= i < |results| => value(results[i]))
  }

  function NonZero(currencies: seq<Code>, exposures: seq<Exposure>): seq<CurrencyAmount> {
    if currencies == [] then []
    else
      var c := currencies[|currencies| - 1];
      NonZero(currencies[..|currencies| - 1], exposures)
      + if TotalFor(exposures, c) == 0 then [] else [CurrencyAmount(c, TotalFor(exposures, c))]
  }

  function SummaryOf(
    lines: seq<PoLine>, orders: Orders, receipts: seq<Receipt>, results: seq<PoReceiptResult>, orphans: nat)
    : PoReceiptSummary
  {
    var outstanding, excess := ValuesOf(results, OutstandingExposure), ValuesOf(results, ExcessExposure);
    PoReceiptSummary(
      |orders.numbers|, |lines|, |receipts|,
      seq(|FULFILLMENTS|, i requires 0 <= i < |FULFILLMENTS| =>
        (FULFILLMENTS[i], StatusTotal(results, FULFILLMENTS[i]))),
      orphans, NonZero(SortedCurrencies(outstanding), outstanding), NonZero(SortedCurrencies(excess), excess))
  }

  function ReportOf(
    lines: seq<PoLine>, orders: Orders, keys: seq<PoKey>, receipts: seq<Receipt>, config: Config): PoReceiptReport
    requires forall k :: k in keys ==> k in orders.index
  {
    var results := ResultsOf(keys, orders, receipts, config);
    var orphans := OrphansOf(SortBy(receipts, ReceiptKey), orders);
    PoReceiptReport(results, orphans, SummaryOf(lines, orders, receipts, results, |orphans|))
  }

  function Report(lines: seq<PoLine>, receipts: seq<Receipt>, config: Config): PoReceiptReport {
    SortedKeysMeaning(lines);
    ReportOf(lines, OrdersOf(lines), SortedKeys(lines), receipts, config)
  }

  // ----- the analysis loops

  method SplitReceipts(receipts: seq<Receipt>, orders: Orders)
      returns (totals: map<PoKey, real>, orphans: seq<OrphanReceipt>)
    requires ValidOrders(orders)
    ensures orphans == OrphansOf(SortBy(receipts, ReceiptKey), orders)
    ensures ThreeWay.TotalsAgree(totals, orders, receipts)
  {
    var rows := SortBy(receipts, ReceiptKey);
    SortByCorrect(receipts, ReceiptKey);
    totals, orphans := SplitRows(rows, orders);
    SameTotalsAgree(totals, orders, rows, receipts);
  }

  lemma SameTotalsAgree(totals: map<PoKey, real>, orders: Orders, rows: seq<Receipt>, receipts: seq<Receipt>)
    requires multiset(rows) == multiset(receipts) && ThreeWay.TotalsAgree(totals, orders, rows)
    ensures ThreeWay.TotalsAgree(totals, orders, receipts)
  {
    forall k | k in orders.index
      ensures ThreeWay.ReceivedFor(receipts, orders.index[k]) == ThreeWay.ReceivedFor(rows, orders.index[k])
    {
      var po := orders.index[k];
      ReceivedOrderIndependent(receipts, rows, PoTarget(po));
    }
  }

  method SplitRows(rows: seq<Receipt>, orders: Orders)
      returns (totals: map<PoKey, real>, orphans: seq<OrphanReceipt>)
    requires ValidOrders(orders)
    ensures orphans == OrphansOf(rows, orders) && ThreeWay.TotalsAgree(totals, orders, rows)
  {
    totals, orphans := map[], [];
    for n := 0 to |rows|
      invariant orphans == OrphansOf(rows[..n], orders)
      invariant ThreeWay.TotalsAgree(totals, orders, rows[..n])
    {
      var receipt := rows[n];
      var key := ReceiptPoKey(receipt);
      assert rows[..n + 1][..n] == rows[..n];
      TotalsAgreeStep(totals, orders, rows, n);
      var issue := None;
      if receipt.poNumber !in orders.numbers {
        issue := Some(UnknownPo);
      } else if key !in orders.index {
        issue := Some(UnknownItem);
      } else if orders.index[key].item != receipt.item {
        issue := Some(ReceiptItemMismatch);
      }
      if issue.Some? {
        orphans := orphans + [OrphanReceipt(receipt, issue.value)];
      } else {
        totals := totals[key := Lookup(totals, key) + receipt.received];
      }
    }
    assert rows[..|rows|] == rows;
  }

  lemma TotalsAgreeStep(totals: map<PoKey, real>, orders: Orders, rows: seq<Receipt>, n: nat)
    requires ValidOrders(orders) && n < |rows| && ThreeWay.TotalsAgree(totals, orders, rows[..n])
    ensures var key := ReceiptPoKey(rows[n]);
            if OrphanIssue(rows[n], orders).Some? then ThreeWay.TotalsAgree(totals, orders, rows[..n + 1])
            else ThreeWay.TotalsAgree(totals[key := Lookup(totals, key) + rows[n].received], orders, rows[..n + 1])
  {
    forall k | k in orders.index
      ensures var po := orders.index[k];
              var hit := ReceiptTarget(rows[n]) == PoTarget(po);
              ThreeWay.ReceivedFor(rows[..n + 1], po)
              == if hit then Some(ThreeWay.ReceivedFor(rows[..n], po).GetOr(0.0) + rows[n].received)
                 else ThreeWay.ReceivedFor(rows[..n], po)
    {
      var po := orders.index[k];
      var target := PoTarget(po);
      ReceivedSnoc(rows, n, target);
      if !HasReceipt(rows[..n], target) {
        NothingReceived(rows[..n], target);
      }
    }
  }

  method CountStatuses(results: seq<PoReceiptResult>, status: Fulfillment) returns (count: nat)
    ensures count == StatusTotal(results, status)
  {
    count := 0;
    for n := 0 to |results|
      invariant count == StatusTotal(results[..n], status)
    {
      assert results[..n + 1][..n] == results[..n];
      if results[n].status == status {
        count := count + 1;
      }
    }
    assert results[..|results|] == results;
  }

  method SumValues(exposures: seq<Exposure>) returns (amounts: seq<CurrencyAmount>)
    ensures amounts == NonZero(SortedCurrencies(exposures), exposures)
  {
    var sorted, totals := SumExposures(exposures);
    amounts := [];
    for k := 0 to |sorted|
      invariant amounts == NonZero(sorted[..k], exposures)
    {
      assert sorted[..k + 1][..k] == sorted[..k];
      var total := totals[sorted[k]];
      if total != 0 {
        amounts := amounts + [CurrencyAmount(sorted[k], total)];
      }
    }
    assert sorted[..|sorted|] == sorted;
  }

  method FulfillLines(
      keys: seq<PoKey>, orders: Orders, totals: map<PoKey, real>, config: Config, ghost receipts: seq<Receipt>)
      returns (results: seq<PoReceiptResult>)
    requires forall k :: k in keys ==> k in orders.index
    requires ThreeWay.TotalsAgree(totals, orders, receipts)
    ensures results == ResultsOf(keys, orders, receipts, config)
  {
    results := [];
    for n := 0 to |keys|
      invariant results == ResultsOf(keys[..n], orders, receipts, config)
    {
      assert keys[..n + 1][..n] == keys[..n];
      var row := FulfillLine(orders.index[keys[n]], Lookup(totals, keys[n]), config);
      assert ThreeWay.ReceivedFor(receipts, orders.index[keys[n]])
          == if keys[n] in totals then Some(totals[keys[n]]) else None;
      results := results + [row];
    }
    assert keys[..|keys|] == keys;
  }

  method FulfillLine(po: PoLine, received: real, config: Config) returns (row: PoReceiptResult)
    ensures forall receipts :: ThreeWay.ReceivedFor(receipts, po).GetOr(0.0) == received ==>
      row == FulfillmentOf(po, receipts, config)
  {
    var outstanding: Price := Max(po.ordered - received, 0.0);
    var excess: Price := Max(received - po.ordered, 0.0);
    var status: Fulfillment;
    if received == 0.0 {
      status := NotReceived;
    } else if excess != 0.0 {
      status := Overdelivered;
    } else if outstanding != 0.0 {
      status := PartiallyReceived;
    } else {
      status := FullyReceived;
    }
    row := PoReceiptResult(
      po, status, received, outstanding, excess,
      RoundMoney(Priced(outstanding, po.price), config), RoundMoney(Priced(excess, po.price), config));
  }

  method AnalyzePoReceipt(lines: seq<PoLine>, receipts: seq<Receipt>, config: Config) returns (report: PoReceiptReport)
    ensures report == Report(lines, receipts, config)
  {
    var orders := OrdersOf(lines);
    OrdersValid(lines);
    SortedKeysMeaning(lines);
    var totals, orphans := SplitReceipts(receipts, orders);
    var results := FulfillLines(SortedKeys(lines), orders, totals, config, receipts);
    var summary := Summarize(lines, orders, receipts, results, |orphans|);
    report := PoReceiptReport(results, orphans, summary);
  }

  method Summarize(
      lines: seq<PoLine>, orders: Orders, receipts: seq<Receipt>, results: seq<PoReceiptResult>, orphans: nat)
      returns (summary: PoReceiptSummary)
    ensures summary == SummaryOf(lines, orders, receipts, results, orphans)
  {
    var outstanding := SumValues(ValuesOf(results, OutstandingExposure));
    var excess := SumValues(ValuesOf(results, ExcessExposure));
    var full := CountStatuses(results, FullyReceived);
    var part := CountStatuses(results, PartiallyReceived);
    var none := CountStatuses(results, NotReceived);
    var over := CountStatuses(results, Overdelivered);
    summary := PoReceiptSummary(
      |orders.numbers|, |lines|, |receipts|,
      [(FullyReceived, full), (PartiallyReceived, part), (NotReceived, none), (Overdelivered, over)],
      orphans, outstanding, excess);
  }

  // ----- what the report means

  function Quantities(receipts: seq<Receipt>): real {
    if receipts == [] then 0.0
    else Quantities(receipts[..|receipts| - 1]) + receipts[|receipts| - 1].received
  }

  function OrphanQuantities(orphans: seq<OrphanReceipt>): real {
    if orphans == [] then 0.0
    else OrphanQuantities(orphans[..|orphans| - 1]) + orphans[|orphans| - 1].receipt.received
  }

  function ReceivedQuantities(results: seq<PoReceiptResult>): real {
    if results == [] then 0.0
    else ReceivedQuantities(results[..|results| - 1]) + results[|results| - 1].received
  }

  /** A receipt is an orphan exactly when no PO line has its number, line and item. */
  lemma OrphanMeans(receipt: Receipt, lines: seq<PoLine>)
    requires UniquePoKeys(lines)
    ensures OrphanIssue(receipt, OrdersOf(lines)).Some? <==>
            forall po :: po in lines ==> ReceiptTarget(receipt) != PoTarget(po)
  {
    OrdersValid(lines);
    IndexMembers(lines, ReceiptPoKey(receipt));
    forall po | po in lines && ReceiptTarget(receipt) == PoTarget(po)
      ensures OrphanIssue(receipt, OrdersOf(lines)).None?
    {
      IndexComplete(lines, po);
    }
  }

  /** What one receipt adds to the PO lines with these keys. */
  function Counted(receipt: Receipt, keys: seq<PoKey>, orders: Orders): real
    requires forall k :: k in keys ==> k in orders.index
  {
    if keys == [] then 0.0
    else
      var n := |keys| - 1;
      var po := orders.index[keys[n]];
      Counted(receipt, keys[..n], orders) + QuantityAt(receipt, PoTarget(po))
  }

  /** A receipt that fits a PO line is counted there and nowhere else. */
  lemma {:induction false} CountedOnce(receipt: Receipt, keys: seq<PoKey>, orders: Orders)
    requires ValidOrders(orders) && forall k :: k in keys ==> k in orders.index
    requires forall i, j :: 0 <= i < j < |keys| ==> keys[i] != keys[j]
    ensures Counted(receipt, keys, orders)
         == if OrphanIssue(receipt, orders).None? && ReceiptPoKey(receipt) in keys then receipt.received else 0.0
  {
    if keys != [] {
      var n := |keys| - 1;
      CountedOnce(receipt, keys[..n], orders);
      assert keys == keys[..n] + [keys[n]];
      assert keys[n] in keys && ReceiptPoKey(receipt) == keys[n] ==> keys[n] !in keys[..n];
    }
  }

  lemma {:induction false} ReceivedByLast(
      receipts: seq<Receipt>, n: nat, keys: seq<PoKey>, orders: Orders, config: Config)
    requires forall k :: k in keys ==> k in orders.index
    requires n < |receipts|
    ensures ReceivedQuantities(ResultsOf(keys, orders, receipts[..n + 1], config))
         == ReceivedQuantities(ResultsOf(keys, orders, receipts[..n], config)) + Counted(receipts[n], keys, orders)
  {
    if keys != [] {
      var m := |keys| - 1;
      ReceivedByLast(receipts, n, keys[..m], orders, config);
      var po := orders.index[keys[m]];
      var target := PoTarget(po);
      ReceivedSnoc(receipts, n, target);
      if !HasReceipt(receipts[..n], target) {
        NothingReceived(receipts[..n], target);
      }
      if !HasReceipt(receipts[..n + 1], target) {
        NothingReceived(receipts[..n + 1], target);
      }
    }
  }

  lemma {:induction false} NothingYet(keys: seq<PoKey>, orders: Orders, config: Config)
    requires forall k :: k in keys ==> k in orders.index
    ensures ReceivedQuantities(ResultsOf(keys, orders, [], config)) == 0.0
  {
    if keys != [] {
      NothingYet(keys[..|keys| - 1], orders, config);
    }
  }

  /** The quantity balance over the first n receipts. */
  ghost predicate Balanced(receipts: seq<Receipt>, keys: seq<PoKey>, orders: Orders, config: Config)
    requires forall k :: k in keys ==> k in orders.index
  {
    Quantities(receipts)
    == ReceivedQuantities(ResultsOf(keys, orders, receipts, config)) + OrphanQuantities(OrphansOf(receipts, orders))
  }

  lemma OrphansByLast(receipts: seq<Receipt>, n: nat, orders: Orders)
    requires n < |receipts|
    ensures OrphanQuantities(OrphansOf(receipts[..n + 1], orders)) == OrphanQuantities(OrphansOf(receipts[..n], orders))
            + if OrphanIssue(receipts[n], orders).Some? then receipts[n].received else 0.0
    ensures Quantities(receipts[..n + 1]) == Quantities(receipts[..n]) + receipts[n].received
  {
    var some, more := receipts[..n], receipts[..n + 1];
    assert more[..|more| - 1] == some && more[|more| - 1] == receipts[n];
    var orphans := OrphansOf(some, orders);
    if OrphanIssue(receipts[n], orders).Some? {
      var last := OrphanReceipt(receipts[n], OrphanIssue(receipts[n], orders).value);
      assert OrphansOf(more, orders) == orphans + [last];
      assert (orphans + [last])[..|orphans|] == orphans;
    } else {
      assert OrphansOf(more, orders) == orphans + [];
      assert orphans + [] == orphans;
    }
  }

  lemma BalancedStep(receipts: seq<Receipt>, n: nat, keys: seq<PoKey>, orders: Orders, config: Config)
    requires ValidOrders(orders) && n < |receipts|
    requires forall k :: k in keys <==> k in orders.index
    requires forall i, j :: 0 <= i < j < |keys| ==> keys[i] != keys[j]
    requires Balanced(receipts[..n], keys, orders, config)
    ensures Balanced(receipts[..n + 1], keys, orders, config)
  {
    ReceivedByLast(receipts, n, keys, orders, config);
    CountedOnce(receipts[n], keys, orders);
    OrphansByLast(receipts, n, orders);
    var before := ReceivedQuantities(ResultsOf(keys, orders, receipts[..n], config));
    var after := ReceivedQuantities(ResultsOf(keys, orders, receipts[..n + 1], config));
    assert after == before + Counted(receipts[n], keys, orders);
  }

  lemma {:induction false} PrefixPartition(
      receipts: seq<Receipt>, n: nat, keys: seq<PoKey>, orders: Orders, config: Config)
    requires ValidOrders(orders) && n <= |receipts|
    requires forall k :: k in keys <==> k in orders.index
    requires forall i, j :: 0 <= i < j < |keys| ==> keys[i] != keys[j]
    ensures Balanced(receipts[..n], keys, orders, config)
  {
    if n == 0 {
      NothingYet(keys, orders, config);
      assert receipts[..0] == [];
    } else {
      PrefixPartition(receipts, n - 1, keys, orders, config);
      BalancedStep(receipts, n - 1, keys, orders, config);
    }
  }

  lemma {:induction false} QuantitiesWithout(receipts: seq<Receipt>, j: nat)
    requires j < |receipts|
    ensures Quantities(receipts) == Quantities(receipts[..j] + receipts[j + 1..]) + receipts[j].received
  {
    var n := |receipts| - 1;
    var rest := receipts[..j] + receipts[j + 1..];
    if j < n {
      QuantitiesWithout(receipts[..n], j);
      assert rest[..|rest| - 1] == receipts[..n][..j] + receipts[..n][j + 1..];
    } else {
      assert rest == receipts[..n];
    }
  }

  lemma {:induction false} QuantitiesOrderIndependent(a: seq<Receipt>, b: seq<Receipt>)
    requires multiset(a) == multiset(b)
    ensures Quantities(a) == Quantities(b)
  {
    assert |multiset(a)| == |multiset(b)|;
    if a != [] {
      var j := RemoveOne(a, b);
      QuantitiesWithout(b, j);
      var front, rest := a[..|a| - 1], b[..j] + b[j + 1..];
      assert |multiset(front)| == |multiset(rest)|;
      SubmultisetOfSameSize(multiset(front), multiset(rest));
      QuantitiesOrderIndependent(front, rest);
    }
  }

  lemma SubmultisetOfSameSize(a: multiset<Receipt>, b: multiset<Receipt>)
    requires a <= b && |a| == |b|
    ensures a == b
  {
    assert b == a + (b - a);
    assert |b - a| == 0;
  }

  /** Receipts are partitioned: the total received is the quantity counted on PO lines plus the
      quantity of orphans. */
  lemma {:induction false} ReceiptsPartition(lines: seq<PoLine>, receipts: seq<Receipt>, config: Config)
    ensures var report := Report(lines, receipts, config);
            Quantities(receipts) == ReceivedQuantities(report.results) + OrphanQuantities(report.orphans)
  {
    var rows := SortBy(receipts, ReceiptKey);
    var orders, keys := OrdersOf(lines), SortedKeys(lines);
    SortByCorrect(receipts, ReceiptKey);
    OrdersValid(lines);
    SortedKeysMeaning(lines);
    PrefixPartition(rows, |rows|, keys, orders, config);
    assert rows[..|rows|] == rows;
    QuantitiesOrderIndependent(receipts, rows);
    SameFulfillment(keys, orders, receipts, rows, config);
  }

  lemma {:induction false} SameFulfillment(
      keys: seq<PoKey>, orders: Orders, a: seq<Receipt>, b: seq<Receipt>, config: Config)
    requires multiset(a) == multiset(b) && forall k :: k in keys ==> k in orders.index
    ensures ResultsOf(keys, orders, a, config) == ResultsOf(keys, orders, b, config)
  {
    if keys != [] {
      SameFulfillment(keys[..|keys| - 1], orders, a, b, config);
      var po := orders.index[keys[|keys| - 1]];
      ReceivedOrderIndependent(a, b, PoTarget(po));
    }
  }

  /** Received minus ordered is excess minus outstanding, at most one of which is nonzero, and the
      status says which; the received quantity is the one three-way reconciliation uses. */
  lemma FulfillmentMeaning(po: PoLine, receipts: seq<Receipt>, config: Config)
    ensures var row := FulfillmentOf(po, receipts, config);
            && row.received == ThreeWay.ReceivedFor(receipts, po).GetOr(0.0)
            && row.received - po.ordered == row.excess - row.outstanding
            && (row.excess == 0.0 || row.outstanding == 0.0)
            && (row.status == NotReceived <==> ThreeWay.ReceivedFor(receipts, po).None?)
            && (row.status == Overdelivered <==> row.received > po.ordered)
            && (row.status == PartiallyReceived <==> 0.0 < row.received < po.ordered)
            && (row.status == FullyReceived <==> row.received == po.ordered)
  {
    var target := PoTarget(po);
    if HasReceipt(receipts, target) {
      var r :| r in receipts && ReceiptTarget(r) == target;
      var j :| 0 <= j < |receipts| && receipts[j] == r;
      ReceivedWithout(receipts, j, target);
    }
  }
}
