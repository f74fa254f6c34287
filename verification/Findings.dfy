/** Importing source rows and indexing a report's findings against them.

    A stored line is identified by its position in its source file. The evidence key of an
    invoice line lists all ten of its fields, so the line serves as its own key. */
module Findings {
  import opened Prelude
  import opened Ordering
  import opened Domain
  import opened InvoiceHelpers
  import GroupExposure
  import PoReceipt
  import ThreeWay
  import InvoicePo
  import InvoiceReceipt

  datatype Category = Reference | Duplicate | Commercial | Quantitative

  function CategoryOf(issue: Issue): Category {
    match issue
    case UnknownPo | UnknownItem | ReceiptItemMismatch => Reference
    case DuplicateInvoice => Duplicate
    case SupplierMismatch | CurrencyMismatch | PriceMismatch => Commercial
    case MissingReceipt | QuantityExceedsPo | QuantityExceedsReceipt | OverReceived => Quantitative
  }

  datatype Finding = Finding(
    code: Issue, category: Category, invoiceLine: Option<nat>, poLine: Option<nat>, receiptLine: Option<nat>)

  // ----- the evidence index

  function QueueAt(queues: map<InvoiceLine, seq<nat>>, key: InvoiceLine): seq<nat> {
    if key in queues then queues[key] else []
  }

  /** Maps from stored keys to stored lines; invoice occurrences queue up under their key. */
  class EvidenceIndex {
    var orders: map<Target, nat>
    var receipts: map<(Code, int), nat>
    var invoices: map<InvoiceLine, seq<nat>>

    constructor ()
      ensures orders == map[] && receipts == map[] && invoices == map[]
    {
      orders, receipts, invoices := map[], map[], map[];
    }
  }

  function OrderRows(lines: seq<PoLine>): map<Target, nat> {
    if lines == [] then map[]
    else OrderRows(lines[..|lines| - 1])[PoTarget(lines[|lines| - 1]) := |lines| - 1]
  }

  lemma OrderRowsSnoc(lines: seq<PoLine>, n: nat)
    requires n < |lines|
    ensures OrderRows(lines[..n + 1]) == OrderRows(lines[..n])[PoTarget(lines[n]) := n]
  {
    assert lines[..n + 1][..n] == lines[..n];
  }

  function ReceiptRows(receipts: seq<Receipt>): map<(Code, int), nat> {
    if receipts == [] then map[]
    else
      var last := receipts[|receipts| - 1];
      ReceiptRows(receipts[..|receipts| - 1])[(last.receiptId, last.line) := |receipts| - 1]
  }

  lemma ReceiptRowsSnoc(receipts: seq<Receipt>, n: nat)
    requires n < |receipts|
    ensures ReceiptRows(receipts[..n + 1]) == ReceiptRows(receipts[..n])[(receipts[n].receiptId, receipts[n].line) := n]
  {
    assert receipts[..n + 1][..n] == receipts[..n];
  }

  /** Positions of the rows equal to the key, ascending. */
  function Positions(invoices: seq<InvoiceLine>, key: InvoiceLine): seq<nat> {
    if invoices == [] then []
    else
      var n := |invoices| - 1;
      Positions(invoices[..n], key) + if invoices[n] == key then [n] else []
  }

  /** A stored line: the row whose document header it belongs to, and the PO line it was resolved
      to at import. */
  datatype StoredLine = StoredLine(header: nat, poLine: Option<nat>)

  /** Row h is the first row of the document of row i. */
  ghost predicate IsHeader<R, K>(rows: seq<R>, document: R -> K, h: nat, i: nat)
    requires i < |rows|
  {
    && h <= i && document(rows[h]) == document(rows[i])
    && forall j :: 0 <= j < h ==> document(rows[j]) != document(rows[i])
  }

  /** The header dictionary after the first n rows. */
  ghost predicate Headers<R, K>(rows: seq<R>, document: R -> K, n: nat, headers: map<K, nat>)
    requires n <= |rows|
  {
    && (forall i :: 0 <= i < n ==>
         document(rows[i]) in headers && IsHeader(rows, document, headers[document(rows[i])], i))
    && (forall k :: k in headers ==> headers[k] < n && document(rows[headers[k]]) == k)
  }

  method HeaderFor<R, K(==)>(rows: seq<R>, document: R -> K, n: nat, headers: map<K, nat>)
      returns (after: map<K, nat>, header: nat)
    requires n < |rows| && Headers(rows, document, n, headers)
    ensures Headers(rows, document, n + 1, after) && IsHeader(rows, document, header, n)
  {
    var key := document(rows[n]);
    after := headers;
    if key !in after {
      after := after[key := n];
    }
    header := after[key];
    assert key in headers ==> IsHeader(rows, document, header, header);
  }

  function OrderDocument(po: PoLine): Code {
    po.number
  }

  function ReceiptDocument(receipt: Receipt): Code {
    receipt.receiptId
  }

  /** A line is stored under the first line of its document and under the PO line it names. */
  ghost predicate StoredAs<R, K>(
    rows: seq<R>, document: R -> K, target: R -> Target, orders: map<Target, nat>, i: nat, line: StoredLine)
    requires i < |rows|
  {
    IsHeader(rows, document, line.header, i) && line.poLine == Find(orders, target(rows[i]))
  }

  ghost predicate StoredUpTo<R, K>(
    rows: seq<R>, document: R -> K, target: R -> Target, orders: map<Target, nat>, n: nat, stored: seq<StoredLine>)
    requires n <= |rows|
  {
    |stored| == n && forall i :: 0 <= i < n ==> StoredAs(rows, document, target, orders, i, stored[i])
  }

  lemma StoredSnoc<R, K>(
      rows: seq<R>, document: R -> K, target: R -> Target, orders: map<Target, nat>, n: nat,
      stored: seq<StoredLine>, line: StoredLine)
    requires n < |rows| && StoredUpTo(rows, document, target, orders, n, stored)
    requires StoredAs(rows, document, target, orders, n, line)
    ensures StoredUpTo(rows, document, target, orders, n + 1, stored + [line])
  {
    var all := stored + [line];
    forall i | 0 <= i < n + 1 ensures StoredAs(rows, document, target, orders, i, all[i]) {
      assert i < n ==> all[i] == stored[i];
    }
  }

  /** The document columns stored with the header are those of the line. */
  ghost predicate SameColumns(invoices: seq<InvoiceLine>, header: nat, n: nat) {
    && header < |invoices| && n < |invoices|
    && invoices[header].date == invoices[n].date && invoices[header].currency == invoices[n].currency
  }

  /** The three files are imported in this order, so receipts and invoices find their PO lines. On
      invoices the loader accepts, a header's date and currency are those of every line under it. */
  method ImportSources(lines: seq<PoLine>, receipts: seq<Receipt>, invoices: seq<InvoiceLine>)
      returns (index: EvidenceIndex, orders: seq<nat>, received: seq<StoredLine>, invoiced: seq<StoredLine>)
    ensures fresh(index)
    ensures index.orders == OrderRows(lines) && index.receipts == ReceiptRows(receipts)
    ensures forall k :: QueueAt(index.invoices, k) == Positions(invoices, k)
    ensures HeadersUpTo(lines, OrderDocument, |lines|, orders)
    ensures StoredUpTo(receipts, ReceiptDocument, ReceiptTarget, OrderRows(lines), |receipts|, received)
    ensures StoredUpTo(invoices, InvoiceDocument, TargetOf, OrderRows(lines), |invoices|, invoiced)
    ensures ConsistentDocuments(invoices) ==>
      forall n :: 0 <= n < |invoices| ==> SameColumns(invoices, invoiced[n].header, n)
  {
    index := new EvidenceIndex();
    orders := ImportOrders(lines, index);
    received := ImportReceipts(receipts, index);
    invoiced := ImportInvoices(invoices, index);
    forall n | 0 <= n < |invoices| && ConsistentDocuments(invoices)
      ensures SameColumns(invoices, invoiced[n].header, n)
    {
      assert StoredAs(invoices, InvoiceDocument, TargetOf, OrderRows(lines), n, invoiced[n]);
      HeaderAgrees(invoices, invoiced[n].header, n);
    }
  }

  lemma HeaderAgrees(invoices: seq<InvoiceLine>, header: nat, n: nat)
    requires n < |invoices| && ConsistentDocuments(invoices) && IsHeader(invoices, InvoiceDocument, header, n)
    ensures SameColumns(invoices, header, n)
  {
    assert invoices[header] in invoices && invoices[n] in invoices;
  }

  ghost predicate HeadersUpTo<R, K>(rows: seq<R>, document: R -> K, n: nat, stored: seq<nat>)
    requires n <= |rows|
  {
    |stored| == n && forall i :: 0 <= i < n ==> IsHeader(rows, document, stored[i], i)
  }

  method ImportOrders(lines: seq<PoLine>, index: EvidenceIndex) returns (stored: seq<nat>)
    requires index.orders == map[]
    modifies index`orders
    ensures index.orders == OrderRows(lines) && HeadersUpTo(lines, OrderDocument, |lines|, stored)
  {
    stored := [];
    var headers: map<Code, nat> := map[];
    for n := 0 to |lines|
      invariant index.orders == OrderRows(lines[..n])
      invariant Headers(lines, OrderDocument, n, headers) && HeadersUpTo(lines, OrderDocument, n, stored)
    {
      headers, stored := ImportOrder(lines, n, index, headers, stored);
    }
    assert lines[..|lines|] == lines;
  }

  method ImportOrder(lines: seq<PoLine>, n: nat, index: EvidenceIndex, seen: map<Code, nat>, before: seq<nat>)
      returns (headers: map<Code, nat>, stored: seq<nat>)
    requires n < |lines| && index.orders == OrderRows(lines[..n])
    requires Headers(lines, OrderDocument, n, seen) && HeadersUpTo(lines, OrderDocument, n, before)
    modifies index`orders
    ensures index.orders == OrderRows(lines[..n + 1])
    ensures Headers(lines, OrderDocument, n + 1, headers) && HeadersUpTo(lines, OrderDocument, n + 1, stored)
  {
    var header;
    headers, header := HeaderFor(lines, OrderDocument, n, seen);
    stored := before + [header];
    HeadersSnoc(lines, OrderDocument, n, before, header);
    OrderRowsSnoc(lines, n);
    index.orders := index.orders[PoTarget(lines[n]) := n];
  }

  lemma HeadersSnoc<R, K>(rows: seq<R>, document: R -> K, n: nat, before: seq<nat>, header: nat)
    requires n < |rows| && HeadersUpTo(rows, document, n, before) && IsHeader(rows, document, header, n)
    ensures HeadersUpTo(rows, document, n + 1, before + [header])
  {
    var all := before + [header];
    forall i | 0 <= i < n + 1 ensures IsHeader(rows, document, all[i], i) {
      assert i < n ==> all[i] == before[i];
    }
  }

  method ImportReceipts(receipts: seq<Receipt>, index: EvidenceIndex) returns (stored: seq<StoredLine>)
    requires index.receipts == map[]
    modifies index`receipts
    ensures index.receipts == ReceiptRows(receipts)
    ensures StoredUpTo(receipts, ReceiptDocument, ReceiptTarget, index.orders, |receipts|, stored)
  {
    stored := [];
    var headers: map<Code, nat> := map[];
    for n := 0 to |receipts|
      invariant index.receipts == ReceiptRows(receipts[..n])
      invariant Headers(receipts, ReceiptDocument, n, headers)
      invariant StoredUpTo(receipts, ReceiptDocument, ReceiptTarget, index.orders, n, stored)
    {
      headers, stored := ImportReceipt(receipts, n, index, headers, stored);
    }
    assert receipts[..|receipts|] == receipts;
  }

  method ImportReceipt(
      receipts: seq<Receipt>, n: nat, index: EvidenceIndex, seen: map<Code, nat>, before: seq<StoredLine>)
      returns (headers: map<Code, nat>, stored: seq<StoredLine>)
    requires n < |receipts| && index.receipts == ReceiptRows(receipts[..n])
    requires Headers(receipts, ReceiptDocument, n, seen)
    requires StoredUpTo(receipts, ReceiptDocument, ReceiptTarget, index.orders, n, before)
    modifies index`receipts
    ensures index.receipts == ReceiptRows(receipts[..n + 1])
    ensures Headers(receipts, ReceiptDocument, n + 1, headers)
    ensures StoredUpTo(receipts, ReceiptDocument, ReceiptTarget, index.orders, n + 1, stored)
  {
    var header;
    headers, header := HeaderFor(receipts, ReceiptDocument, n, seen);
    var line := StoredLine(header, Find(index.orders, ReceiptTarget(receipts[n])));
    stored := before + [line];
    StoredSnoc(receipts, ReceiptDocument, ReceiptTarget, index.orders, n, before, line);
    ReceiptRowsSnoc(receipts, n);
    index.receipts := index.receipts[(receipts[n].receiptId, receipts[n].line) := n];
  }

  /** The queues hold the positions of the first n rows. */
  ghost predicate Queued(queues: map<InvoiceLine, seq<nat>>, invoices: seq<InvoiceLine>, n: nat)
    requires n <= |invoices|
  {
    forall k :: QueueAt(queues, k) == Positions(invoices[..n], k)
  }

  method ImportInvoices(invoices: seq<InvoiceLine>, index: EvidenceIndex) returns (stored: seq<StoredLine>)
    requires index.invoices == map[]
    modifies index`invoices
    ensures forall k :: QueueAt(index.invoices, k) == Positions(invoices, k)
    ensures StoredUpTo(invoices, InvoiceDocument, TargetOf, index.orders, |invoices|, stored)
  {
    stored := [];
    var headers: map<(Code, Code), nat> := map[];
    for n := 0 to |invoices|
      invariant Queued(index.invoices, invoices, n)
      invariant Headers(invoices, InvoiceDocument, n, headers)
      invariant StoredUpTo(invoices, InvoiceDocument, TargetOf, index.orders, n, stored)
    {
      headers, stored := ImportInvoice(invoices, n, index, headers, stored);
    }
    assert invoices[..|invoices|] == invoices;
  }

  method ImportInvoice(
      invoices: seq<InvoiceLine>, n: nat, index: EvidenceIndex, seen: map<(Code, Code), nat>, before: seq<StoredLine>)
      returns (headers: map<(Code, Code), nat>, stored: seq<StoredLine>)
    requires n < |invoices| && Queued(index.invoices, invoices, n)
    requires Headers(invoices, InvoiceDocument, n, seen)
    requires StoredUpTo(invoices, InvoiceDocument, TargetOf, index.orders, n, before)
    modifies index`invoices
    ensures Queued(index.invoices, invoices, n + 1)
    ensures Headers(invoices, InvoiceDocument, n + 1, headers)
    ensures StoredUpTo(invoices, InvoiceDocument, TargetOf, index.orders, n + 1, stored)
  {
    var header;
    headers, header := HeaderFor(invoices, InvoiceDocument, n, seen);
    var line := StoredLine(header, Find(index.orders, TargetOf(invoices[n])));
    stored := before + [line];
    StoredSnoc(invoices, InvoiceDocument, TargetOf, index.orders, n, before, line);
    Enqueue(invoices, n, index);
  }

  method Enqueue(invoices: seq<InvoiceLine>, n: nat, index: EvidenceIndex)
    requires n < |invoices| && Queued(index.invoices, invoices, n)
    modifies index`invoices
    ensures Queued(index.invoices, invoices, n + 1)
  {
    var key := invoices[n];
    ghost var before := index.invoices;
    index.invoices := index.invoices[key := QueueAt(index.invoices, key) + [n]];
    forall k ensures QueueAt(index.invoices, k) == Positions(invoices[..n + 1], k) {
      assert QueueAt(before, k) == Positions(invoices[..n], k);
      PositionsSnoc(invoices, n, k);
    }
  }

  lemma PositionsSnoc(invoices: seq<InvoiceLine>, n: nat, k: InvoiceLine)
    requires n < |invoices|
    ensures Positions(invoices[..n + 1], k) == Positions(invoices[..n], k) + if invoices[n] == k then [n] else []
  {
    assert invoices[..n + 1][..n] == invoices[..n];
  }

  // ----- findings of an invoice-mode report

  datatype ReportRow = ReportRow(invoice: InvoiceLine, issues: seq<Issue>)

  function Keys(rows: seq<ReportRow>): (keys: seq<InvoiceLine>)
    ensures |keys| == |rows|
    ensures forall i :: 0 <= i < |rows| ==> keys[i] == rows[i].invoice
  {
    seq(|rows|, i requires 0 <= i < |rows| => rows[i].invoice)
  }

  /** Every key occurs among the rows at most as often as among the imported lines. */
  ghost predicate Covered(keys: seq<InvoiceLine>, invoices: seq<InvoiceLine>) {
    multiset(keys) <= multiset(invoices)
  }

  lemma {:induction false} PositionsCount(invoices: seq<InvoiceLine>, key: InvoiceLine)
    ensures |Positions(invoices, key)| == multiset(invoices)[key]
    ensures forall i :: 0 <= i < |Positions(invoices, key)| ==>
      Positions(invoices, key)[i] < |invoices| && invoices[Positions(invoices, key)[i]] == key
    ensures forall i, j :: 0 <= i < j < |Positions(invoices, key)| ==>
      Positions(invoices, key)[i] < Positions(invoices, key)[j]
  {
    if invoices != [] {
      var n := |invoices| - 1;
      PositionsCount(invoices[..n], key);
      assert invoices == invoices[..n] + [invoices[n]];
    }
  }

  /** How many earlier rows have the key of row k. */
  function EarlierSame(keys: seq<InvoiceLine>, k: nat): nat
    requires k < |keys|
  {
    multiset(keys[..k])[keys[k]]
  }

  lemma EarlierBounded(keys: seq<InvoiceLine>, k: nat)
    requires k < |keys|
    ensures EarlierSame(keys, k) < multiset(keys)[keys[k]]
  {
    assert keys == keys[..k] + [keys[k]] + keys[k + 1..];
  }

  /** The stored line a report row is paired with: rows of equal key in order of import. */
  function Paired(keys: seq<InvoiceLine>, invoices: seq<InvoiceLine>, k: nat): nat
    requires k < |keys| && Covered(keys, invoices)
  {
    PositionsCount(invoices, keys[k]);
    EarlierBounded(keys, k);
    Positions(invoices, keys[k])[EarlierSame(keys, k)]
  }

  /** Each row is paired with a stored line of equal key, and no line serves two rows. */
  lemma PairingSound(keys: seq<InvoiceLine>, invoices: seq<InvoiceLine>, k: nat, m: nat)
    requires k < m < |keys| && Covered(keys, invoices)
    ensures Paired(keys, invoices, k) < |invoices| && invoices[Paired(keys, invoices, k)] == keys[k]
    ensures Paired(keys, invoices, m) < |invoices| && invoices[Paired(keys, invoices, m)] == keys[m]
    ensures Paired(keys, invoices, k) != Paired(keys, invoices, m)
  {
    PositionsCount(invoices, keys[k]);
    PositionsCount(invoices, keys[m]);
    EarlierBounded(keys, k);
    EarlierBounded(keys, m);
    if keys[k] == keys[m] {
      assert keys[..m] == keys[..k] + [keys[k]] + keys[k + 1..m];
      assert EarlierSame(keys, k) < EarlierSame(keys, m);
    }
  }

  /** When the rows are a rearrangement of the imported lines, every line is paired. */
  lemma {:induction false} PairingComplete(keys: seq<InvoiceLine>, invoices: seq<InvoiceLine>, n: nat) returns (k: nat)
    requires multiset(keys) == multiset(invoices) && n < |invoices|
    ensures k < |keys| && Paired(keys, invoices, k) == n
  {
    var key := invoices[n];
    PositionsCount(invoices, key);
    var i := PositionOf(invoices, n);
    k := Occurrence(keys, key, i);
  }

  lemma {:induction false} PositionOf(invoices: seq<InvoiceLine>, n: nat) returns (i: nat)
    requires n < |invoices|
    ensures i < |Positions(invoices, invoices[n])| && Positions(invoices, invoices[n])[i] == n
  {
    var last := |invoices| - 1;
    if n == last {
      i := |Positions(invoices[..last], invoices[n])|;
    } else {
      i := PositionOf(invoices[..last], n);
    }
  }

  lemma {:induction false} Occurrence(keys: seq<InvoiceLine>, key: InvoiceLine, i: nat) returns (k: nat)
    requires i < multiset(keys)[key]
    ensures k < |keys| && keys[k] == key && EarlierSame(keys, k) == i
  {
    var last := |keys| - 1;
    assert keys == keys[..last] + [keys[last]];
    if i < multiset(keys[..last])[key] {
      k := Occurrence(keys[..last], key, i);
      assert keys[..last][..k] == keys[..k];
    } else {
      k := last;
    }
  }

  function RowFindings(row: ReportRow, line: nat, po: Option<nat>): (findings: seq<Finding>)
    ensures |findings| == |row.issues|
  {
    seq(|row.issues|, j requires 0 <= j < |row.issues| =>
      Finding(row.issues[j], CategoryOf(row.issues[j]), Some(line), po, None))
  }

  /** The findings of the first n report rows. */
  function InvoiceFindings(rows: seq<ReportRow>, invoices: seq<InvoiceLine>, orders: map<Target, nat>, n: nat)
    : seq<Finding>
    requires n <= |rows| && Covered(Keys(rows), invoices)
  {
    if n == 0 then []
    else
      InvoiceFindings(rows, invoices, orders, n - 1)
      + RowFindings(rows[n - 1], Paired(Keys(rows), invoices, n - 1), Find(orders, TargetOf(rows[n - 1].invoice)))
  }

  // ----- what each finding of an invoice-mode report says

  /** The category of each issue code. */
  ghost predicate Categorized(f: Finding) {
    && (f.category == Reference <==> f.code in {UnknownPo, UnknownItem, ReceiptItemMismatch})
    && (f.category == Duplicate <==> f.code == DuplicateInvoice)
    && (f.category == Commercial <==> f.code in {SupplierMismatch, CurrencyMismatch, PriceMismatch})
  }

  /** The finding names one of the row's issues, a stored invoice line equal to the row's, and the
      PO line the engine resolved it to, if it did. */
  ghost predicate Tells(f: Finding, row: ReportRow, line: nat, invoices: seq<InvoiceLine>, lines: seq<PoLine>) {
    && f.code in row.issues && Categorized(f)
    && f.invoiceLine == Some(line) && line < |invoices| && invoices[line] == row.invoice
    && (f.poLine.Some? <==> Resolve(row.invoice, OrdersOf(lines)).Resolved?)
    && (f.poLine.Some? ==>
          f.poLine.value < |lines| && Resolve(row.invoice, OrdersOf(lines)) == Resolved(lines[f.poLine.value]))
    && f.receiptLine == None
  }

  ghost predicate Comes(
    f: Finding, rows: seq<ReportRow>, stored: seq<nat>, invoices: seq<InvoiceLine>, lines: seq<PoLine>)
    requires |stored| == |rows|
  {
    exists n :: 0 <= n < |rows| && Tells(f, rows[n], stored[n], invoices, lines)
  }

  ghost predicate IsTold(
    findings: seq<Finding>, row: ReportRow, line: nat, code: Issue, invoices: seq<InvoiceLine>, lines: seq<PoLine>)
  {
    exists f :: f in findings && f.code == code && Tells(f, row, line, invoices, lines)
  }

  /** Row n of the report is stored line stored[n], no line serves two rows, every finding comes
      from a row, and every issue of every row has its finding. */
  ghost predicate Accounted(
    findings: seq<Finding>, rows: seq<ReportRow>, stored: seq<nat>, invoices: seq<InvoiceLine>, lines: seq<PoLine>)
  {
    && |stored| == |rows|
    && (forall i, j :: 0 <= i < j < |stored| ==> stored[i] != stored[j])
    && (forall f :: f in findings ==> Comes(f, rows, stored, invoices, lines))
    && (forall n, code :: 0 <= n < |rows| && code in rows[n].issues ==>
          IsTold(findings, rows[n], stored[n], code, invoices, lines))
  }

  ghost predicate TellsReport(
    findings: seq<Finding>, rows: seq<ReportRow>, invoices: seq<InvoiceLine>, lines: seq<PoLine>)
  {
    exists stored :: Accounted(findings, rows, stored, invoices, lines)
  }

  function PairedLines(keys: seq<InvoiceLine>, invoices: seq<InvoiceLine>): (stored: seq<nat>)
    requires Covered(keys, invoices)
    ensures |stored| == |keys|
    ensures forall n :: 0 <= n < |keys| ==> stored[n] == Paired(keys, invoices, n)
  {
    seq(|keys|, n requires 0 <= n < |keys| => Paired(keys, invoices, n))
  }

  lemma PairedLineEqual(keys: seq<InvoiceLine>, invoices: seq<InvoiceLine>, k: nat)
    requires k < |keys| && Covered(keys, invoices)
    ensures Paired(keys, invoices, k) < |invoices| && invoices[Paired(keys, invoices, k)] == keys[k]
  {
    PositionsCount(invoices, keys[k]);
    EarlierBounded(keys, k);
  }

  lemma {:induction false} RowTells(row: ReportRow, line: nat, invoices: seq<InvoiceLine>, lines: seq<PoLine>)
    requires UniquePoKeys(lines) && line < |invoices| && invoices[line] == row.invoice
    ensures var told := RowFindings(row, line, Find(OrderRows(lines), TargetOf(row.invoice)));
            && (forall f :: f in told ==> Tells(f, row, line, invoices, lines))
            && (forall code :: code in row.issues ==> IsTold(told, row, line, code, invoices, lines))
  {
    EvidenceAgreesWithEngine(lines, row.invoice);
    var told := RowFindings(row, line, Find(OrderRows(lines), TargetOf(row.invoice)));
    forall j | 0 <= j < |told| ensures Tells(told[j], row, line, invoices, lines) {
      assert row.issues[j] in row.issues;
    }
    forall code | code in row.issues ensures IsTold(told, row, line, code, invoices, lines) {
      var j :| 0 <= j < |row.issues| && row.issues[j] == code;
      assert told[j] in told && told[j].code == code;
    }
  }

  /** The findings of the first n rows. */
  ghost predicate AccountedUpTo(
    findings: seq<Finding>, rows: seq<ReportRow>, stored: seq<nat>, invoices: seq<InvoiceLine>, lines: seq<PoLine>,
    n: nat)
    requires n <= |rows| == |stored|
  {
    && (forall f :: f in findings ==> Comes(f, rows, stored, invoices, lines))
    && (forall i, code :: 0 <= i < n && code in rows[i].issues ==>
          IsTold(findings, rows[i], stored[i], code, invoices, lines))
  }

  lemma AccountedOne(
      findings: seq<Finding>, told: seq<Finding>, rows: seq<ReportRow>, stored: seq<nat>, invoices: seq<InvoiceLine>,
      lines: seq<PoLine>, n: nat)
    requires n < |rows| == |stored| && AccountedUpTo(findings, rows, stored, invoices, lines, n)
    requires forall f :: f in told ==> Tells(f, rows[n], stored[n], invoices, lines)
    requires forall code :: code in rows[n].issues ==> IsTold(told, rows[n], stored[n], code, invoices, lines)
    ensures AccountedUpTo(findings + told, rows, stored, invoices, lines, n + 1)
  {
    forall f | f in findings + told ensures Comes(f, rows, stored, invoices, lines) {
      if f !in findings {
        assert f in told;
      }
    }
    forall i, code | 0 <= i < n + 1 && code in rows[i].issues
      ensures IsTold(findings + told, rows[i], stored[i], code, invoices, lines)
    {
      var some := if i < n then findings else told;
      assert IsTold(some, rows[i], stored[i], code, invoices, lines);
      var f :| f in some && f.code == code && Tells(f, rows[i], stored[i], invoices, lines);
      assert f in findings + told;
    }
  }

  lemma {:induction false} FindingsAccounted(
      rows: seq<ReportRow>, invoices: seq<InvoiceLine>, lines: seq<PoLine>, n: nat)
    requires UniquePoKeys(lines) && n <= |rows| && Covered(Keys(rows), invoices)
    ensures AccountedUpTo(InvoiceFindings(rows, invoices, OrderRows(lines), n), rows,
                          PairedLines(Keys(rows), invoices), invoices, lines, n)
  {
    if n > 0 {
      var keys := Keys(rows);
      var stored := PairedLines(keys, invoices);
      FindingsAccounted(rows, invoices, lines, n - 1);
      PairedLineEqual(keys, invoices, n - 1);
      RowTells(rows[n - 1], stored[n - 1], invoices, lines);
      AccountedOne(
        InvoiceFindings(rows, invoices, OrderRows(lines), n - 1),
        RowFindings(rows[n - 1], stored[n - 1], Find(OrderRows(lines), TargetOf(rows[n - 1].invoice))),
        rows, stored, invoices, lines, n - 1);
    }
  }

  /** The findings tell the whole report and nothing else. */
  lemma {:induction false} FindingsTellReport(rows: seq<ReportRow>, invoices: seq<InvoiceLine>, lines: seq<PoLine>)
    requires UniquePoKeys(lines) && Covered(Keys(rows), invoices)
    ensures TellsReport(InvoiceFindings(rows, invoices, OrderRows(lines), |rows|), rows, invoices, lines)
  {
    var keys := Keys(rows);
    var stored := PairedLines(keys, invoices);
    FindingsAccounted(rows, invoices, lines, |rows|);
    forall i, j | 0 <= i < j < |stored| ensures stored[i] != stored[j] {
      PairingSound(keys, invoices, i, j);
    }
    assert Accounted(InvoiceFindings(rows, invoices, OrderRows(lines), |rows|), rows, stored, invoices, lines);
  }

  /** What is left of every queue after n rows were paired. */
  ghost predicate QueuesAfter(
    queues: map<InvoiceLine, seq<nat>>, keys: seq<InvoiceLine>, invoices: seq<InvoiceLine>, n: nat)
    requires n <= |keys|
  {
    forall key :: QueueAfter(queues, keys, invoices, n, key)
  }

  ghost predicate QueueAfter(
    queues: map<InvoiceLine, seq<nat>>, keys: seq<InvoiceLine>, invoices: seq<InvoiceLine>, n: nat, key: InvoiceLine)
    requires n <= |keys|
  {
    var popped := multiset(keys[..n])[key];
    popped <= |Positions(invoices, key)| && QueueAt(queues, key) == Positions(invoices, key)[popped..]
  }

  /** The indexing loop's state after n rows. */
  ghost predicate Indexed(
    queues: map<InvoiceLine, seq<nat>>, findings: seq<Finding>, rows: seq<ReportRow>,
    invoices: seq<InvoiceLine>, orders: map<Target, nat>, n: nat)
    requires n <= |rows|
  {
    && QueuesAfter(queues, Keys(rows), invoices, n)
    && (Covered(Keys(rows), invoices) ==> findings == InvoiceFindings(rows, invoices, orders, n))
  }

  lemma QueueStep(
      queues: map<InvoiceLine, seq<nat>>, keys: seq<InvoiceLine>, invoices: seq<InvoiceLine>, n: nat, key: InvoiceLine)
    requires n < |keys| && QueueAfter(queues, keys, invoices, n, key)
    requires QueueAt(queues, keys[n]) != []
    ensures QueueAfter(queues[keys[n] := QueueAt(queues, keys[n])[1..]], keys, invoices, n + 1, key)
  {
    var popped, all := multiset(keys[..n])[key], Positions(invoices, key);
    assert keys[..n + 1] == keys[..n] + [keys[n]];
    if key == keys[n] {
      assert multiset(keys[..n + 1])[key] == popped + 1;
      assert all[popped..][1..] == all[popped + 1..];
    } else {
      assert multiset(keys[..n + 1])[key] == popped;
    }
  }

  lemma QueuesStep(
      queues: map<InvoiceLine, seq<nat>>, keys: seq<InvoiceLine>, invoices: seq<InvoiceLine>, n: nat)
    requires n < |keys| && QueuesAfter(queues, keys, invoices, n)
    requires QueueAt(queues, keys[n]) != []
    ensures QueuesAfter(queues[keys[n] := QueueAt(queues, keys[n])[1..]], keys, invoices, n + 1)
  {
    var popped, next := queues[keys[n] := QueueAt(queues, keys[n])[1..]], n + 1;
    forall key ensures QueueAfter(popped, keys, invoices, next, key) {
      assert QueueAfter(queues, keys, invoices, n, key);
      QueueStep(queues, keys, invoices, n, key);
    }
  }

  /** The head of a non-empty queue is the paired line; an empty one means too few lines. */
  lemma QueueHead(
      queues: map<InvoiceLine, seq<nat>>, keys: seq<InvoiceLine>, invoices: seq<InvoiceLine>, n: nat)
    requires n < |keys| && QueuesAfter(queues, keys, invoices, n)
    ensures QueueAt(queues, keys[n]) == [] ==> !Covered(keys, invoices)
    ensures QueueAt(queues, keys[n]) != [] && Covered(keys, invoices) ==>
      QueueAt(queues, keys[n])[0] == Paired(keys, invoices, n)
  {
    assert QueueAfter(queues, keys, invoices, n, keys[n]);
    PositionsCount(invoices, keys[n]);
    EarlierBounded(keys, n);
  }

  lemma IndexedStep(
      queues: map<InvoiceLine, seq<nat>>, findings: seq<Finding>, rows: seq<ReportRow>,
      invoices: seq<InvoiceLine>, orders: map<Target, nat>, n: nat)
    requires n < |rows| && Indexed(queues, findings, rows, invoices, orders, n)
    requires QueueAt(queues, rows[n].invoice) != []
    ensures var queue := QueueAt(queues, rows[n].invoice);
            Indexed(queues[rows[n].invoice := queue[1..]],
                    findings + RowFindings(rows[n], queue[0], Find(orders, TargetOf(rows[n].invoice))),
                    rows, invoices, orders, n + 1)
  {
    QueuesStep(queues, Keys(rows), invoices, n);
    QueueHead(queues, Keys(rows), invoices, n);
  }

  lemma FullyPairedMeansCovered(
      queues: map<InvoiceLine, seq<nat>>, keys: seq<InvoiceLine>, invoices: seq<InvoiceLine>)
    requires QueuesAfter(queues, keys, invoices, |keys|)
    ensures Covered(keys, invoices)
  {
    assert keys[..|keys|] == keys;
    forall key ensures multiset(keys)[key] <= multiset(invoices)[key] {
      assert QueueAfter(queues, keys, invoices, |keys|, key);
      PositionsCount(invoices, key);
    }
  }

  /** Pops one stored line per report row. The result is None (an IndexError) exactly when some
      key occurs more often in the report than in the import. */
  method PersistInvoiceFindings(rows: seq<ReportRow>, evidence: EvidenceIndex, ghost invoices: seq<InvoiceLine>)
      returns (result: Option<seq<Finding>>)
    requires forall k :: QueueAt(evidence.invoices, k) == Positions(invoices, k)
    modifies evidence`invoices
    ensures result.Some? <==> Covered(Keys(rows), invoices)
    ensures result.Some? ==>
      && result.value == InvoiceFindings(rows, invoices, evidence.orders, |rows|)
      && QueuesAfter(evidence.invoices, Keys(rows), invoices, |rows|)
    ensures result.Some? ==>
      forall lines :: UniquePoKeys(lines) && OrderRows(lines) == evidence.orders ==>
        TellsReport(result.value, rows, invoices, lines)
  {
    StartIndexed(evidence.invoices, rows, invoices, evidence.orders);
    result := PersistRows(rows, evidence, invoices);
    if result.Some? {
      FinishIndexed(evidence.invoices, result.value, rows, invoices, evidence.orders);
      forall lines | UniquePoKeys(lines) && OrderRows(lines) == evidence.orders
        ensures TellsReport(result.value, rows, invoices, lines)
      {
        FindingsTellReport(rows, invoices, lines);
      }
    }
  }

  method PersistRows(rows: seq<ReportRow>, evidence: EvidenceIndex, ghost invoices: seq<InvoiceLine>)
      returns (result: Option<seq<Finding>>)
    requires Indexed(evidence.invoices, [], rows, invoices, evidence.orders, 0)
    modifies evidence`invoices
    ensures result.None? ==> !Covered(Keys(rows), invoices)
    ensures result.Some? ==>
      Indexed(evidence.invoices, result.value, rows, invoices, evidence.orders, |rows|)
  {
    var findings: seq<Finding> := [];
    for n := 0 to |rows|
      invariant Indexed(evidence.invoices, findings, rows, invoices, evidence.orders, n)
    {
      var added := PersistRow(rows, n, evidence, findings, invoices);
      if added.None? {
        return None;
      }
      findings := findings + added.value;
    }
    return Some(findings);
  }

  lemma FinishIndexed(
      queues: map<InvoiceLine, seq<nat>>, findings: seq<Finding>, rows: seq<ReportRow>,
      invoices: seq<InvoiceLine>, orders: map<Target, nat>)
    requires Indexed(queues, findings, rows, invoices, orders, |rows|)
    ensures Covered(Keys(rows), invoices)
    ensures findings == InvoiceFindings(rows, invoices, orders, |rows|)
    ensures QueuesAfter(queues, Keys(rows), invoices, |rows|)
  {
    FullyPairedMeansCovered(queues, Keys(rows), invoices);
  }

  lemma StartIndexed(
      queues: map<InvoiceLine, seq<nat>>, rows: seq<ReportRow>, invoices: seq<InvoiceLine>, orders: map<Target, nat>)
    requires forall k :: QueueAt(queues, k) == Positions(invoices, k)
    ensures Indexed(queues, [], rows, invoices, orders, 0)
  {
    forall key ensures QueueAfter(queues, Keys(rows), invoices, 0, key) {
      assert Keys(rows)[..0] == [];
    }
  }

  method PersistRow(
      rows: seq<ReportRow>, n: nat, evidence: EvidenceIndex,
      ghost findings: seq<Finding>, ghost invoices: seq<InvoiceLine>)
      returns (added: Option<seq<Finding>>)
    requires n < |rows| && Indexed(evidence.invoices, findings, rows, invoices, evidence.orders, n)
    modifies evidence`invoices
    ensures added.None? ==> !Covered(Keys(rows), invoices)
    ensures added.Some? ==>
      Indexed(evidence.invoices, findings + added.value, rows, invoices, evidence.orders, n + 1)
  {
    QueueHead(evidence.invoices, Keys(rows), invoices, n);
    ghost var before := evidence.invoices;
    var line := PopLeft(evidence, rows[n].invoice);
    if line.None? {
      return None;
    }
    IndexedStep(before, findings, rows, invoices, evidence.orders, n);
    var row := AddRow(rows[n], line.value, Find(evidence.orders, TargetOf(rows[n].invoice)));
    return Some(row);
  }

  /** `deque.popleft`; None stands for the IndexError of an empty queue. */
  method PopLeft(evidence: EvidenceIndex, key: InvoiceLine) returns (line: Option<nat>)
    modifies evidence`invoices
    ensures var queue := old(QueueAt(evidence.invoices, key));
            if queue == [] then line == None && evidence.invoices == old(evidence.invoices)
            else line == Some(queue[0]) && evidence.invoices == old(evidence.invoices)[key := queue[1..]]
  {
    var queue := QueueAt(evidence.invoices, key);
    if queue == [] {
      return None;
    }
    evidence.invoices := evidence.invoices[key := queue[1..]];
    return Some(queue[0]);
  }

  method AddRow(row: ReportRow, line: nat, po: Option<nat>) returns (findings: seq<Finding>)
    ensures findings == RowFindings(row, line, po)
  {
    findings := [];
    for j := 0 to |row.issues|
      invariant findings == RowFindings(row, line, po)[..j]
    {
      var issue := row.issues[j];
      findings := findings + [Finding(issue, CategoryOf(issue), Some(line), po, None)];
    }
  }

  // ----- findings of the receiving report

  function FulfillmentFindings(results: seq<PoReceipt.PoReceiptResult>, orders: map<Target, nat>): seq<Finding> {
    if results == [] then []
    else
      var last := results[|results| - 1];
      FulfillmentFindings(results[..|results| - 1], orders)
      + if last.status == PoReceipt.Overdelivered
        then [Finding(OverReceived, Quantitative, None, Find(orders, PoTarget(last.po)), None)] else []
  }

  function OrphanFindings(orphans: seq<PoReceipt.OrphanReceipt>, receipts: map<(Code, int), nat>): seq<Finding>
    requires forall o :: o in orphans ==> (o.receipt.receiptId, o.receipt.line) in receipts
  {
    if orphans == [] then []
    else
      var last := orphans[|orphans| - 1];
      OrphanFindings(orphans[..|orphans| - 1], receipts)
      + [Finding(last.issue, CategoryOf(last.issue), None, None,
                 Some(receipts[(last.receipt.receiptId, last.receipt.line)]))]
  }

  /** The finding reports an over-received PO line. */
  ghost predicate TellsExcess(f: Finding, row: PoReceipt.PoReceiptResult, orders: map<Target, nat>) {
    && row.status == PoReceipt.Overdelivered
    && f.code == OverReceived && f.category == Quantitative
    && f.poLine == Find(orders, PoTarget(row.po)) && f.invoiceLine == None && f.receiptLine == None
  }

  /** The finding reports a receipt that fits no PO line. */
  ghost predicate TellsOrphan(f: Finding, o: PoReceipt.OrphanReceipt, receipts: map<(Code, int), nat>) {
    && (o.receipt.receiptId, o.receipt.line) in receipts
    && f.code == o.issue && Categorized(f)
    && f.receiptLine == Some(receipts[(o.receipt.receiptId, o.receipt.line)])
    && f.invoiceLine == None && f.poLine == None
  }

  ghost predicate FromExcess(f: Finding, results: seq<PoReceipt.PoReceiptResult>, orders: map<Target, nat>) {
    exists row :: row in results && TellsExcess(f, row, orders)
  }

  ghost predicate ExcessIsTold(findings: seq<Finding>, row: PoReceipt.PoReceiptResult, orders: map<Target, nat>) {
    exists f :: f in findings && TellsExcess(f, row, orders)
  }

  /** Every over-received row and every orphan has a finding, and nothing else has. */
  ghost predicate TellsReceiving(
    findings: seq<Finding>, results: seq<PoReceipt.PoReceiptResult>, orphans: seq<PoReceipt.OrphanReceipt>,
    orders: map<Target, nat>, receipts: map<(Code, int), nat>)
  {
    && (forall f :: f in findings ==>
          FromExcess(f, results, orders) || exists o :: o in orphans && TellsOrphan(f, o, receipts))
    && (forall row :: row in results && row.status == PoReceipt.Overdelivered ==> ExcessIsTold(findings, row, orders))
    && (forall o :: o in orphans ==> exists f :: f in findings && TellsOrphan(f, o, receipts))
  }

  lemma {:induction false} ExcessTold(results: seq<PoReceipt.PoReceiptResult>, orders: map<Target, nat>)
    ensures var findings := FulfillmentFindings(results, orders);
            && (forall f :: f in findings ==> FromExcess(f, results, orders))
            && (forall row :: row in results && row.status == PoReceipt.Overdelivered ==>
                  ExcessIsTold(findings, row, orders))
  {
    if results != [] {
      var n := |results| - 1;
      var before, last := FulfillmentFindings(results[..n], orders), results[n];
      ExcessTold(results[..n], orders);
      assert results == results[..n] + [last];
      ExcessOneMore(results[..n], before, last, orders);
    }
  }

  lemma ExcessOneMore(
      results: seq<PoReceipt.PoReceiptResult>, before: seq<Finding>, last: PoReceipt.PoReceiptResult,
      orders: map<Target, nat>)
    requires forall f :: f in before ==> FromExcess(f, results, orders)
    requires forall row :: row in results && row.status == PoReceipt.Overdelivered ==> ExcessIsTold(before, row, orders)
    ensures var findings := before
              + if last.status == PoReceipt.Overdelivered
                then [Finding(OverReceived, Quantitative, None, Find(orders, PoTarget(last.po)), None)] else [];
            && (forall f :: f in findings ==> FromExcess(f, results + [last], orders))
            && (forall row :: row in results + [last] && row.status == PoReceipt.Overdelivered ==>
                  ExcessIsTold(findings, row, orders))
  {
    var f0 := Finding(OverReceived, Quantitative, None, Find(orders, PoTarget(last.po)), None);
    var findings := before + if last.status == PoReceipt.Overdelivered then [f0] else [];
    forall f | f in findings ensures FromExcess(f, results + [last], orders) {
      if f in before {
        var row :| row in results && TellsExcess(f, row, orders);
        assert row in results + [last];
      } else {
        assert last in results + [last] && TellsExcess(f, last, orders);
      }
    }
    forall row | row in results + [last] && row.status == PoReceipt.Overdelivered
      ensures ExcessIsTold(findings, row, orders)
    {
      if row in results {
        var f :| f in before && TellsExcess(f, row, orders);
        assert f in findings;
      } else {
        assert f0 in findings && TellsExcess(f0, row, orders);
      }
    }
  }

  lemma {:induction false} OrphansTold(orphans: seq<PoReceipt.OrphanReceipt>, receipts: map<(Code, int), nat>)
    requires forall o :: o in orphans ==> (o.receipt.receiptId, o.receipt.line) in receipts
    ensures var findings := OrphanFindings(orphans, receipts);
            && |findings| == |orphans|
            && forall j :: 0 <= j < |orphans| ==> TellsOrphan(findings[j], orphans[j], receipts)
  {
    if orphans != [] {
      OrphansTold(orphans[..|orphans| - 1], receipts);
    }
  }

  lemma {:induction false} ReceivingTold(
      results: seq<PoReceipt.PoReceiptResult>, orphans: seq<PoReceipt.OrphanReceipt>, orders: map<Target, nat>,
      receipts: map<(Code, int), nat>)
    requires forall o :: o in orphans ==> (o.receipt.receiptId, o.receipt.line) in receipts
    ensures TellsReceiving(
              FulfillmentFindings(results, orders) + OrphanFindings(orphans, receipts), results, orphans, orders,
              receipts)
  {
    var a, b := FulfillmentFindings(results, orders), OrphanFindings(orphans, receipts);
    ExcessTold(results, orders);
    OrphansTold(orphans, receipts);
    forall f | f in a + b && f !in a ensures exists o :: o in orphans && TellsOrphan(f, o, receipts) {
      var j :| 0 <= j < |b| && b[j] == f;
      assert orphans[j] in orphans;
    }
    forall o | o in orphans ensures exists f :: f in a + b && TellsOrphan(f, o, receipts) {
      var j :| 0 <= j < |orphans| && orphans[j] == o;
      assert b[j] in a + b;
    }
    forall row | row in results && row.status == PoReceipt.Overdelivered ensures ExcessIsTold(a + b, row, orders) {
      var f :| f in a && TellsExcess(f, row, orders);
      assert f in a + b;
    }
  }

  /** None stands for the KeyError of an orphan that was not imported. */
  method PersistReceivingFindings(
      results: seq<PoReceipt.PoReceiptResult>, orphans: seq<PoReceipt.OrphanReceipt>, evidence: EvidenceIndex)
      returns (result: Option<seq<Finding>>)
    ensures result.Some? <==> forall o :: o in orphans ==> (o.receipt.receiptId, o.receipt.line) in evidence.receipts
    ensures result.Some? ==>
      && result.value == FulfillmentFindings(results, evidence.orders) + OrphanFindings(orphans, evidence.receipts)
      && TellsReceiving(result.value, results, orphans, evidence.orders, evidence.receipts)
  {
    var findings: seq<Finding> := [];
    for n := 0 to |results|
      invariant findings == FulfillmentFindings(results[..n], evidence.orders)
    {
      assert results[..n + 1][..n] == results[..n];
      var poLine := Find(evidence.orders, PoTarget(results[n].po));
      if results[n].status == PoReceipt.Overdelivered {
        findings := findings + [Finding(OverReceived, CategoryOf(OverReceived), None, poLine, None)];
      }
    }
    assert results[..|results|] == results;
    for n := 0 to |orphans|
      invariant forall o :: o in orphans[..n] ==> (o.receipt.receiptId, o.receipt.line) in evidence.receipts
      invariant findings
             == FulfillmentFindings(results, evidence.orders) + OrphanFindings(orphans[..n], evidence.receipts)
    {
      assert orphans[..n + 1][..n] == orphans[..n];
      var orphan := orphans[n];
      if (orphan.receipt.receiptId, orphan.receipt.line) !in evidence.receipts {
        return None;
      }
      findings := findings + [Finding(
        orphan.issue, CategoryOf(orphan.issue), None, None,
        Some(evidence.receipts[(orphan.receipt.receiptId, orphan.receipt.line)]))];
    }
    assert orphans[..|orphans|] == orphans;
    ReceivingTold(results, orphans, evidence.orders, evidence.receipts);
    return Some(findings);
  }

  // ----- findings of the engine's own reports

  lemma {:induction false} OrderRowsMeaning(lines: seq<PoLine>, target: Target)
    ensures target in OrderRows(lines) ==>
      OrderRows(lines)[target] < |lines| && PoTarget(lines[OrderRows(lines)[target]]) == target
    ensures (exists po :: po in lines && PoTarget(po) == target) ==> target in OrderRows(lines)
  {
    if lines != [] {
      OrderRowsMeaning(lines[..|lines| - 1], target);
      assert lines == lines[..|lines| - 1] + [lines[|lines| - 1]];
    }
  }

  /** The evidence index knows a PO line for an invoice line exactly when the engine resolves
      it, and then it is the same PO line. */
  lemma EvidenceAgreesWithEngine(lines: seq<PoLine>, invoice: InvoiceLine)
    requires UniquePoKeys(lines)
    ensures var found := Find(OrderRows(lines), TargetOf(invoice));
            var resolution := Resolve(invoice, OrdersOf(lines));
            && (found.Some? <==> resolution.Resolved?)
            && (found.Some? ==> found.value < |lines| && resolution == Resolved(lines[found.value]))
  {
    OrderRowsMeaning(lines, TargetOf(invoice));
    var found := Find(OrderRows(lines), TargetOf(invoice));
    match Resolve(invoice, OrdersOf(lines))
    case Resolved(po) => ResolveMeans(invoice, lines, po);
    case Unresolved(_) =>
    if found.Some? {
      assert lines[found.value] in lines;
      ResolveMeans(invoice, lines, lines[found.value]);
    }
  }

  function CodeCount(findings: seq<Finding>, code: Issue): nat {
    if findings == [] then 0
    else CodeCount(findings[..|findings| - 1], code) + if findings[|findings| - 1].code == code then 1 else 0
  }

  lemma {:induction false} CodeCountAppend(a: seq<Finding>, b: seq<Finding>, code: Issue)
    ensures CodeCount(a + b, code) == CodeCount(a, code) + CodeCount(b, code)
  {
    if b == [] {
      assert a + b == a;
    } else {
      assert (a + b)[..|a + b| - 1] == a + b[..|b| - 1];
      CodeCountAppend(a, b[..|b| - 1], code);
    }
  }

  lemma {:induction false} CodeCountRow(row: ReportRow, line: nat, po: Option<nat>, code: Issue, n: nat)
    requires n <= |row.issues|
    ensures CodeCount(RowFindings(row, line, po)[..n], code) == multiset(row.issues[..n])[code]
  {
    if n > 0 {
      CodeCountRow(row, line, po, code, n - 1);
      assert RowFindings(row, line, po)[..n][..n - 1] == RowFindings(row, line, po)[..n - 1];
      assert row.issues[..n] == row.issues[..n - 1] + [row.issues[n - 1]];
    }
  }

  /** The findings per code are the report's issue counts. */
  lemma {:induction false} FindingsMatchCounts(
      rows: seq<ReportRow>, outcomes: seq<Outcome>, invoices: seq<InvoiceLine>, orders: map<Target, nat>,
      n: nat, code: Issue)
    requires n <= |rows| == |outcomes| && Covered(Keys(rows), invoices)
    requires forall k :: 0 <= k < |rows| ==> rows[k].issues == outcomes[k].issues
    ensures CodeCount(InvoiceFindings(rows, invoices, orders, n), code) == IssueCount(outcomes[..n], code)
  {
    if n > 0 {
      FindingsMatchCounts(rows, outcomes, invoices, orders, n - 1, code);
      assert outcomes[..n][..n - 1] == outcomes[..n - 1];
      var row := rows[n - 1];
      var line, po := Paired(Keys(rows), invoices, n - 1), Find(orders, TargetOf(row.invoice));
      CodeCountRow(row, line, po, code, |row.issues|);
      assert RowFindings(row, line, po)[..|row.issues|] == RowFindings(row, line, po);
      assert row.issues[..|row.issues|] == row.issues;
      CodeCountAppend(InvoiceFindings(rows, invoices, orders, n - 1), RowFindings(row, line, po), code);
    }
  }

  /** The count the summary lists for an issue; an issue it does not list counts as zero. */
  function ListedCount(counts: seq<(Issue, nat)>, issue: Issue): nat {
    if counts == [] then 0
    else if counts[|counts| - 1].0 == issue then counts[|counts| - 1].1
    else ListedCount(counts[..|counts| - 1], issue)
  }

  lemma ListedLast(before: seq<(Issue, nat)>, last: Issue, count: nat, issue: Issue)
    ensures ListedCount(before + [(last, count)], issue)
         == if last == issue then count else ListedCount(before, issue)
  {
    assert (before + [(last, count)])[..|before|] == before;
  }

  lemma {:induction false} ListedCountMeaning(order: seq<Issue>, outcomes: seq<Outcome>, issue: Issue)
    ensures ListedCount(IssueCounts(order, outcomes), issue)
         == if issue in order then IssueCount(outcomes, issue) else 0
  {
    if order != [] {
      var n := |order| - 1;
      ListedCountMeaning(order[..n], outcomes, issue);
      assert issue in order <==> issue in order[..n] || issue == order[n];
      var before, count := IssueCounts(order[..n], outcomes), IssueCount(outcomes, order[n]);
      if count != 0 {
        assert IssueCounts(order, outcomes) == before + [(order[n], count)];
        ListedLast(before, order[n], count, issue);
      } else {
        assert IssueCounts(order, outcomes) == before;
      }
    }
  }

  /** Everything `persist_findings` relies on, for a report with these rows and outcomes:
      no queue runs empty, rows and stored lines pair one to one with equal keys, and the
      findings per code are the summary's issue counts. */
  ghost predicate Indexable(
    rows: seq<ReportRow>, invoices: seq<InvoiceLine>, orders: map<Target, nat>, counts: seq<(Issue, nat)>)
  {
    && multiset(Keys(rows)) == multiset(invoices)
    && forall code :: CodeCount(InvoiceFindings(rows, invoices, orders, |rows|), code) == ListedCount(counts, code)
  }

  lemma {:induction false} ReportIndexable(
      rows: seq<ReportRow>, outcomes: seq<Outcome>, invoices: seq<InvoiceLine>, orders: map<Target, nat>)
    requires |rows| == |outcomes| && Keys(rows) == Flatten(GroupsOf(invoices))
    requires forall k :: 0 <= k < |rows| ==> rows[k].issues == outcomes[k].issues
    ensures Indexable(rows, invoices, orders, IssueCounts(ISSUE_ORDER, outcomes))
  {
    GroupsElements(invoices);
    forall code
      ensures CodeCount(InvoiceFindings(rows, invoices, orders, |rows|), code)
           == ListedCount(IssueCounts(ISSUE_ORDER, outcomes), code)
    {
      FindingsMatchCounts(rows, outcomes, invoices, orders, |rows|, code);
      assert outcomes[..|outcomes|] == outcomes;
      ListedCountMeaning(ISSUE_ORDER, outcomes, code);
      IssueOrderComplete(code);
    }
  }

  function ThreeWayRow(r: ThreeWay.ThreeWayResult): ReportRow {
    ReportRow(r.invoice, r.issues)
  }

  function InvoicePoRow(r: InvoicePo.InvoicePoResult): ReportRow {
    ReportRow(r.invoice, r.issues)
  }

  function InvoiceReceiptRow(r: InvoiceReceipt.InvoiceReceiptResult): ReportRow {
    ReportRow(r.invoice, r.issues)
  }

  function RowsFrom<R>(results: seq<R>, row: R -> ReportRow): (rows: seq<ReportRow>)
    ensures |rows| == |results|
    ensures forall k :: 0 <= k < |results| ==> rows[k] == row(results[k])
  {
    seq(|results|, k requires 0 <= k < |results| => row(results[k]))
  }

  lemma KeysAreGroupRows<R>(groups: seq<Group>, all: seq<seq<R>>, row: R -> ReportRow)
    requires GroupExposure.RowPerLine(groups, all)
    requires forall i, j :: 0 <= i < |groups| && 0 <= j < |groups[i]| ==> row(all[i][j]).invoice == groups[i][j]
    ensures Keys(RowsFrom(Flatten(all), row)) == Flatten(groups)
  {
    var shape := ShapeOf(groups);
    FlattenLength(groups, shape);
    FlattenLength(all, shape);
    forall k | 0 <= k < Sum(shape) ensures row(Flatten(all)[k]).invoice == Flatten(groups)[k] {
      FlattenAt(groups, shape, k);
      FlattenAt(all, shape, k);
    }
  }

  /** A three-way report over imported records can be indexed completely. */
  lemma {:induction false} ThreeWayIndexable(
      lines: seq<PoLine>, receipts: seq<Receipt>, invoices: seq<InvoiceLine>, config: Config)
    ensures var report := ThreeWay.Report(lines, receipts, invoices, config);
            Indexable(RowsFrom(report.results, ThreeWayRow), invoices, OrderRows(lines), report.summary.issueCounts)
  {
    var groups := GroupsOf(invoices);
    var all := ThreeWay.RowsOf(groups, OrdersOf(lines), receipts, config);
    KeysAreGroupRows(groups, all, ThreeWayRow);
    ReportIndexable(
      RowsFrom(Flatten(all), ThreeWayRow), GroupExposure.OutcomesOf(Flatten(all), ThreeWay.OutcomeOf),
      invoices, OrderRows(lines));
  }

  /** So can an invoice-PO report. */
  lemma {:induction false} InvoicePoIndexable(lines: seq<PoLine>, invoices: seq<InvoiceLine>, config: Config)
    ensures var report := InvoicePo.Report(lines, invoices, config);
            Indexable(RowsFrom(report.results, InvoicePoRow), invoices, OrderRows(lines), report.summary.issueCounts)
  {
    var groups := GroupsOf(invoices);
    var all := InvoicePo.RowsOf(groups, OrdersOf(lines), config);
    KeysAreGroupRows(groups, all, InvoicePoRow);
    ReportIndexable(
      RowsFrom(Flatten(all), InvoicePoRow), GroupExposure.OutcomesOf(Flatten(all), InvoicePo.OutcomeOf),
      invoices, OrderRows(lines));
  }

  /** So can an invoice-receipt report, which is imported without PO lines. */
  lemma {:induction false} InvoiceReceiptIndexable(
      receipts: seq<Receipt>, invoices: seq<InvoiceLine>, config: Config)
    ensures var report := InvoiceReceipt.Report(receipts, invoices, config);
            Indexable(RowsFrom(report.results, InvoiceReceiptRow), invoices, OrderRows([]), report.summary.issueCounts)
  {
    var groups := GroupsOf(invoices);
    var all := InvoiceReceipt.RowsOf(groups, receipts, config);
    KeysAreGroupRows(groups, all, InvoiceReceiptRow);
    ReportIndexable(
      RowsFrom(Flatten(all), InvoiceReceiptRow), GroupExposure.OutcomesOf(Flatten(all), InvoiceReceipt.OutcomeOf),
      invoices, OrderRows([]));
  }

  // ----- findings of the receiving report over imported records

  lemma {:induction false} ReceiptRowsMeaning(receipts: seq<Receipt>, r: Receipt)
    requires UniqueReceiptKeys(receipts) && r in receipts
    ensures (r.receiptId, r.line) in ReceiptRows(receipts)
    ensures var n := ReceiptRows(receipts)[(r.receiptId, r.line)]; n < |receipts| && receipts[n] == r
  {
    var n := |receipts| - 1;
    if r != receipts[n] {
      var i :| 0 <= i < |receipts| && receipts[i] == r;
      assert receipts[..n][i] == r;
      ReceiptRowsMeaning(receipts[..n], r);
      assert (r.receiptId, r.line) != (receipts[n].receiptId, receipts[n].line);
    }
  }

  lemma {:induction false} OrphansAreReceipts(receipts: seq<Receipt>, orders: Orders, o: PoReceipt.OrphanReceipt)
    requires o in PoReceipt.OrphansOf(receipts, orders)
    ensures o.receipt in receipts
  {
    var n := |receipts| - 1;
    var before := PoReceipt.OrphansOf(receipts[..n], orders);
    if o in before {
      OrphansAreReceipts(receipts[..n], orders, o);
    }
  }

  /** In the receiving mode no orphan lookup fails, and every orphan's finding points at the very
      receipt line that was imported. */
  lemma {:induction false} ReceivingIndexable(
      lines: seq<PoLine>, receipts: seq<Receipt>, config: Config, o: PoReceipt.OrphanReceipt)
    requires UniqueReceiptKeys(receipts) && o in PoReceipt.Report(lines, receipts, config).orphans
    ensures (o.receipt.receiptId, o.receipt.line) in ReceiptRows(receipts)
    ensures var n := ReceiptRows(receipts)[(o.receipt.receiptId, o.receipt.line)];
            n < |receipts| && receipts[n] == o.receipt
  {
    OrphansAreReceipts(SortBy(receipts, InvoiceReceipt.ReceiptKey), OrdersOf(lines), o);
    SortMembers(receipts, InvoiceReceipt.ReceiptKey);
    ReceiptRowsMeaning(receipts, o.receipt);
  }

  lemma {:induction false} ResultsArePoLines(
      keys: seq<PoKey>, orders: Orders, receipts: seq<Receipt>, config: Config, row: PoReceipt.PoReceiptResult)
    requires forall k :: k in keys ==> k in orders.index
    requires row in PoReceipt.ResultsOf(keys, orders, receipts, config)
    ensures exists k :: k in orders.index && row.po == orders.index[k]
  {
    var n := |keys| - 1;
    if row in PoReceipt.ResultsOf(keys[..n], orders, receipts, config) {
      ResultsArePoLines(keys[..n], orders, receipts, config, row);
    } else {
      assert keys[n] in orders.index;
    }
  }

  /** A fulfillment row is about a line of the PO file. */
  lemma {:induction false} ReceivingRowsAreLines(
      lines: seq<PoLine>, receipts: seq<Receipt>, config: Config, row: PoReceipt.PoReceiptResult)
    requires row in PoReceipt.Report(lines, receipts, config).results
    ensures row.po in lines
  {
    PoReceipt.SortedKeysMeaning(lines);
    ResultsArePoLines(PoReceipt.SortedKeys(lines), OrdersOf(lines), receipts, config, row);
    var k :| k in IndexOf(lines) && row.po == IndexOf(lines)[k];
    IndexMembers(lines, k);
  }

  /** The index finds that very line, so an over-received row's finding names it. */
  lemma {:induction false} OrdersIndexed(lines: seq<PoLine>, po: PoLine)
    requires UniquePoKeys(lines) && po in lines
    ensures var found := Find(OrderRows(lines), PoTarget(po));
            found.Some? && found.value < |lines| && lines[found.value] == po
  {
    OrderRowsMeaning(lines, PoTarget(po));
  }
}
