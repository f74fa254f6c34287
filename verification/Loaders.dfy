/** The loader's identity and document-consistency passes, and what acceptance means. */
module Loaders {
  import opened Domain

  /** The offending CSV row and the first row with the same key. */
  datatype RowIssue = RowIssue(row: nat, firstRow: nat)

  /** The same for one column of a document, by its place among the consistent columns. */
  datatype ColumnIssue = ColumnIssue(row: nat, column: nat, firstRow: nat)

  datatype Numbered<T> = Numbered(row: nat, record: T)

  /** CSV line numbers grow from row to row. */
  ghost predicate Ascending<T>(rows: seq<Numbered<T>>) {
    forall i, j :: 0 <= i < j < |rows| ==> rows[i].row < rows[j].row
  }

  ghost predicate DistinctKeys<T, K>(rows: seq<Numbered<T>>, key: T -> K) {
    forall i, j :: 0 <= i < j < |rows| ==> key(rows[i].record) != key(rows[j].record)
  }

  /** Rows of the same document agree on every consistent column. */
  ghost predicate Agreeing<T, D, C>(rows: seq<Numbered<T>>, document: T -> D, columns: seq<T -> C>) {
    forall i, j, c ::
      0 <= i < j < |rows| && 0 <= c < |columns| && document(rows[i].record) == document(rows[j].record) ==>
        columns[c](rows[i].record) == columns[c](rows[j].record)
  }

  // ----- what the passes report

  ghost predicate IsFirst<T, K>(rows: seq<Numbered<T>>, key: T -> K, i: nat)
    requires i < |rows|
  {
    forall j :: 0 <= j < i ==> key(rows[j].record) != key(rows[i].record)
  }

  /** Row i is the first with the key of the later row n. */
  ghost predicate Clash<T, K>(rows: seq<Numbered<T>>, key: T -> K, i: int, n: int) {
    0 <= i < n < |rows| && key(rows[i].record) == key(rows[n].record) && IsFirst(rows, key, i)
  }

  ghost predicate Repeats<T, K>(rows: seq<Numbered<T>>, key: T -> K, i: int, n: int, e: RowIssue) {
    Clash(rows, key, i, n) && e == RowIssue(rows[n].row, rows[i].row)
  }

  ghost predicate Differs<T, D, C>(
    rows: seq<Numbered<T>>, document: T -> D, columns: seq<T -> C>, i: int, n: int, e: ColumnIssue)
  {
    && Clash(rows, document, i, n) && e.column < |columns|
    && columns[e.column](rows[n].record) != columns[e.column](rows[i].record)
    && e.row == rows[n].row && e.firstRow == rows[i].row
  }

  /** One issue for each row with an earlier row of equal key, in row order, naming the first such
      row. */
  ghost predicate ReportsRepeats<T, K>(rows: seq<Numbered<T>>, key: T -> K, n: nat, issues: seq<RowIssue>) {
    && (forall e :: e in issues <==> exists i, m :: m < n && Repeats(rows, key, i, m, e))
    && (forall a, b :: 0 <= a < b < |issues| ==> issues[a].row < issues[b].row)
  }

  predicate Earlier(a: ColumnIssue, b: ColumnIssue) {
    a.row < b.row || (a.row == b.row && a.column < b.column)
  }

  ghost predicate Found<T, D, C>(
    rows: seq<Numbered<T>>, document: T -> D, columns: seq<T -> C>, n: nat, width: nat, e: ColumnIssue)
  {
    exists i, m :: (m < n || (m == n && e.column < width)) && Differs(rows, document, columns, i, m, e)
  }

  /** One issue for each column in which a row differs from the first row of its document, in row
      and column order; of row n only the first `width` columns. */
  ghost predicate ReportsDifferences<T, D, C>(
    rows: seq<Numbered<T>>, document: T -> D, columns: seq<T -> C>, n: nat, width: nat, issues: seq<ColumnIssue>)
  {
    && (forall e :: e in issues <==> Found(rows, document, columns, n, width, e))
    && (forall a, b :: 0 <= a < b < |issues| ==> Earlier(issues[a], issues[b]))
  }

  lemma {:induction false} FirstWithKey<T, K>(rows: seq<Numbered<T>>, key: T -> K, n: nat) returns (i: nat)
    requires n < |rows|
    ensures i <= n && key(rows[i].record) == key(rows[n].record) && IsFirst(rows, key, i)
  {
    if IsFirst(rows, key, n) {
      i := n;
    } else {
      var j :| 0 <= j < n && key(rows[j].record) == key(rows[n].record);
      i := FirstWithKey(rows, key, j);
    }
  }

  lemma RepeatFound<T(!new), K(!new)>(rows: seq<Numbered<T>>, key: T -> K, issues: seq<RowIssue>, j: nat, n: nat)
    requires ReportsRepeats(rows, key, |rows|, issues) && j < n < |rows|
    ensures key(rows[j].record) == key(rows[n].record) ==> issues != []
  {
    if key(rows[j].record) == key(rows[n].record) {
      var i := FirstWithKey(rows, key, n);
      assert Repeats(rows, key, i, n, RowIssue(rows[n].row, rows[i].row));
      assert RowIssue(rows[n].row, rows[i].row) in issues;
    }
  }

  lemma NoRepeatsMeans<T(!new), K(!new)>(rows: seq<Numbered<T>>, key: T -> K, issues: seq<RowIssue>)
    requires ReportsRepeats(rows, key, |rows|, issues)
    ensures issues == [] <==> DistinctKeys(rows, key)
  {
    if issues == [] {
      forall j, n | 0 <= j < n < |rows| ensures key(rows[j].record) != key(rows[n].record) {
        RepeatFound(rows, key, issues, j, n);
      }
    } else {
      assert issues[0] in issues;
      var i, n :| n < |rows| && Repeats(rows, key, i, n, issues[0]);
    }
  }

  lemma NoDifferencesMeans<T(!new), D(!new), C(!new)>(
      rows: seq<Numbered<T>>, document: T -> D, columns: seq<T -> C>, issues: seq<ColumnIssue>)
    requires ReportsDifferences(rows, document, columns, |rows|, 0, issues)
    ensures issues == [] <==> Agreeing(rows, document, columns)
  {
    if issues == [] {
      forall j, n, c | 0 <= j < n < |rows| && 0 <= c < |columns| && document(rows[j].record) == document(rows[n].record)
        ensures columns[c](rows[j].record) == columns[c](rows[n].record)
      {
        var i := FirstWithKey(rows, document, j);
        SameAsFirst(rows, document, columns, issues, i, j, c);
        SameAsFirst(rows, document, columns, issues, i, n, c);
      }
    } else {
      assert issues[0] in issues;
      assert Found(rows, document, columns, |rows|, 0, issues[0]);
    }
  }

  lemma SameAsFirst<T(!new), D(!new), C(!new)>(
      rows: seq<Numbered<T>>, document: T -> D, columns: seq<T -> C>, issues: seq<ColumnIssue>, i: nat, n: nat, c: nat)
    requires ReportsDifferences(rows, document, columns, |rows|, 0, issues)
    requires i <= n < |rows| && c < |columns|
    requires document(rows[i].record) == document(rows[n].record) && IsFirst(rows, document, i)
    ensures issues == [] ==> columns[c](rows[i].record) == columns[c](rows[n].record)
  {
    if columns[c](rows[i].record) != columns[c](rows[n].record) {
      var e := ColumnIssue(rows[n].row, c, rows[i].row);
      assert Differs(rows, document, columns, i, n, e);
      assert e in issues;
    }
  }

  // ----- the dictionaries of first rows

  function RowOf<T>(r: Numbered<T>): nat {
    r.row
  }

  function Whole<T>(r: Numbered<T>): Numbered<T> {
    r
  }

  /** Each key among the first n rows maps to what is stored of its first row. */
  ghost predicate FirstSeen<T(!new), K(!new), V(!new)>(
    rows: seq<Numbered<T>>, n: nat, key: T -> K, stored: Numbered<T> -> V, first: map<K, V>)
    requires n <= |rows|
  {
    && (forall i :: 0 <= i < n ==> key(rows[i].record) in first)
    && (forall k :: k in first ==> exists i :: StoredFirst(rows, n, key, stored, first, k, i))
  }

  ghost predicate StoredFirst<T, K, V>(
    rows: seq<Numbered<T>>, n: nat, key: T -> K, stored: Numbered<T> -> V, first: map<K, V>, k: K, i: int)
    requires n <= |rows| && k in first
  {
    0 <= i < n && key(rows[i].record) == k && IsFirst(rows, key, i) && first[k] == stored(rows[i])
  }

  lemma FirstSeenStep<T(!new), K(!new), V(!new)>(
      rows: seq<Numbered<T>>, n: nat, key: T -> K, stored: Numbered<T> -> V, first: map<K, V>)
    requires n < |rows| && FirstSeen(rows, n, key, stored, first)
    ensures var k := key(rows[n].record);
            FirstSeen(rows, n + 1, key, stored, if k in first then first else first[k := stored(rows[n])])
  {
    var k := key(rows[n].record);
    var after := if k in first then first else first[k := stored(rows[n])];
    var next := n + 1;
    forall k' | k' in after ensures exists i :: StoredFirst(rows, next, key, stored, after, k', i) {
      if k' in first {
        var i :| StoredFirst(rows, n, key, stored, first, k', i);
        assert StoredFirst(rows, next, key, stored, after, k', i);
      } else {
        assert StoredFirst(rows, next, key, stored, after, k', n);
      }
    }
  }

  lemma FirstSeenAt<T(!new), K(!new), V(!new)>(
      rows: seq<Numbered<T>>, n: nat, key: T -> K, stored: Numbered<T> -> V, first: map<K, V>) returns (i: nat)
    requires n < |rows| && FirstSeen(rows, n, key, stored, first) && key(rows[n].record) in first
    ensures Clash(rows, key, i, n) && first[key(rows[n].record)] == stored(rows[i])
  {
    var k := key(rows[n].record);
    var j :| StoredFirst(rows, n, key, stored, first, k, j);
    i := j;
  }

  lemma OneFirst<T, K>(rows: seq<Numbered<T>>, key: T -> K, i: nat, j: nat, n: nat)
    requires Clash(rows, key, i, n) && Clash(rows, key, j, n)
    ensures i == j
  {
  }

  // ----- the passes

  lemma RepeatReported<T(!new), K(!new)>(
      rows: seq<Numbered<T>>, key: T -> K, n: nat, issues: seq<RowIssue>, i: nat)
    requires Ascending(rows) && ReportsRepeats(rows, key, n, issues) && Clash(rows, key, i, n)
    ensures ReportsRepeats(rows, key, n + 1, issues + [RowIssue(rows[n].row, rows[i].row)])
  {
    var e := RowIssue(rows[n].row, rows[i].row);
    var all := issues + [e];
    assert Repeats(rows, key, i, n, e);
    forall x ensures x in all <==> exists j, m :: m < n + 1 && Repeats(rows, key, j, m, x) {
      if x in issues {
        var j, m :| m < n && Repeats(rows, key, j, m, x);
      }
      if exists j, m :: m < n + 1 && Repeats(rows, key, j, m, x) {
        var j, m :| m < n + 1 && Repeats(rows, key, j, m, x);
        if m == n {
          OneFirst(rows, key, i, j, n);
        }
      }
    }
    forall a | 0 <= a < |issues| ensures issues[a].row < e.row {
      assert issues[a] in issues;
      var j, m :| m < n && Repeats(rows, key, j, m, issues[a]);
    }
  }

  lemma NothingToReport<T(!new), K(!new)>(rows: seq<Numbered<T>>, key: T -> K, n: nat, issues: seq<RowIssue>)
    requires ReportsRepeats(rows, key, n, issues) && n < |rows| && IsFirst(rows, key, n)
    ensures ReportsRepeats(rows, key, n + 1, issues)
  {
    forall x ensures x in issues <==> exists j, m :: m < n + 1 && Repeats(rows, key, j, m, x) {
      if x in issues {
        var j, m :| m < n && Repeats(rows, key, j, m, x);
        assert m < n + 1 && Repeats(rows, key, j, m, x);
      }
    }
  }

  /** Reports the records whose key was already seen, unless repeated keys are kept for review. */
  method ValidateIdentities<T(!new), K(==, !new)>(rows: seq<Numbered<T>>, key: T -> K, review: bool)
      returns (issues: seq<RowIssue>)
    requires Ascending(rows)
    ensures review ==> issues == []
    ensures !review ==> ReportsRepeats(rows, key, |rows|, issues)
    ensures !review ==> (issues == [] <==> DistinctKeys(rows, key))
  {
    issues := [];
    if review {
      return;
    }
    var firstRows: map<K, nat> := map[];
    for n := 0 to |rows|
      invariant FirstSeen(rows, n, key, RowOf, firstRows)
      invariant ReportsRepeats(rows, key, n, issues)
    {
      firstRows, issues := CheckRow(rows, key, n, firstRows, issues);
    }
    NoRepeatsMeans(rows, key, issues);
  }

  method CheckRow<T(!new), K(==, !new)>(
      rows: seq<Numbered<T>>, key: T -> K, n: nat, seen: map<K, nat>, reported: seq<RowIssue>)
      returns (firstRows: map<K, nat>, issues: seq<RowIssue>)
    requires Ascending(rows) && n < |rows|
    requires FirstSeen(rows, n, key, RowOf, seen) && ReportsRepeats(rows, key, n, reported)
    ensures FirstSeen(rows, n + 1, key, RowOf, firstRows) && ReportsRepeats(rows, key, n + 1, issues)
  {
    firstRows, issues := seen, reported;
    var k := key(rows[n].record);
    FirstSeenStep(rows, n, key, RowOf, seen);
    if k in seen {
      ghost var i := FirstSeenAt(rows, n, key, RowOf, seen);
      RepeatReported(rows, key, n, issues, i);
    } else {
      NothingToReport(rows, key, n, issues);
      firstRows := firstRows[k := rows[n].row];
    }
    var firstRow := firstRows[k];
    if firstRow != rows[n].row {
      issues := issues + [RowIssue(rows[n].row, firstRow)];
    }
  }

  lemma FoundInRow<T(!new), D(!new), C(!new)>(
      rows: seq<Numbered<T>>, document: T -> D, columns: seq<T -> C>, n: nat, e: ColumnIssue)
    ensures Found(rows, document, columns, n + 1, 0, e) <==> Found(rows, document, columns, n, |columns|, e)
    ensures n < |rows| && IsFirst(rows, document, n) ==>
      (Found(rows, document, columns, n + 1, 0, e) <==> Found(rows, document, columns, n, 0, e))
  {
    if Found(rows, document, columns, n + 1, 0, e) {
      var i, m :| m < n + 1 && Differs(rows, document, columns, i, m, e);
      assert (m < n || (m == n && e.column < |columns|)) && Differs(rows, document, columns, i, m, e);
      assert n < |rows| && IsFirst(rows, document, n) ==> m < n;
    }
    if Found(rows, document, columns, n, |columns|, e) {
      var i, m :| (m < n || (m == n && e.column < |columns|)) && Differs(rows, document, columns, i, m, e);
      assert m < n + 1 && Differs(rows, document, columns, i, m, e);
    }
    if Found(rows, document, columns, n, 0, e) {
      var i, m :| m < n && Differs(rows, document, columns, i, m, e);
      assert m < n + 1 && Differs(rows, document, columns, i, m, e);
    }
  }

  lemma NextRow<T(!new), D(!new), C(!new)>(
      rows: seq<Numbered<T>>, document: T -> D, columns: seq<T -> C>, n: nat, issues: seq<ColumnIssue>)
    requires ReportsDifferences(rows, document, columns, n, |columns|, issues)
          || (n < |rows| && IsFirst(rows, document, n) && ReportsDifferences(rows, document, columns, n, 0, issues))
    ensures ReportsDifferences(rows, document, columns, n + 1, 0, issues)
  {
    var next := n + 1;
    forall e ensures e in issues <==> Found(rows, document, columns, next, 0, e) {
      FoundInRow(rows, document, columns, n, e);
    }
  }

  lemma FoundInColumn<T(!new), D(!new), C(!new)>(
      rows: seq<Numbered<T>>, document: T -> D, columns: seq<T -> C>, n: nat, c: nat, i: nat, e: ColumnIssue)
    requires Ascending(rows) && Clash(rows, document, i, n) && c < |columns|
    ensures Found(rows, document, columns, n, c + 1, e)
       <==> Found(rows, document, columns, n, c, e)
            || (e == ColumnIssue(rows[n].row, c, rows[i].row) && Differs(rows, document, columns, i, n, e))
  {
    if Found(rows, document, columns, n, c + 1, e) {
      var j, m :| (m < n || (m == n && e.column < c + 1)) && Differs(rows, document, columns, j, m, e);
      if m == n && e.column == c {
        OneFirst(rows, document, i, j, n);
      } else {
        assert (m < n || (m == n && e.column < c)) && Differs(rows, document, columns, j, m, e);
      }
    }
    if Found(rows, document, columns, n, c, e) {
      var j, m :| (m < n || (m == n && e.column < c)) && Differs(rows, document, columns, j, m, e);
      assert (m < n || (m == n && e.column < c + 1)) && Differs(rows, document, columns, j, m, e);
    }
  }

  lemma FoundBefore<T(!new), D(!new), C(!new)>(
      rows: seq<Numbered<T>>, document: T -> D, columns: seq<T -> C>, n: nat, c: nat, i: nat, e: ColumnIssue)
    requires Ascending(rows) && n < |rows| && i < |rows| && Found(rows, document, columns, n, c, e)
    ensures Earlier(e, ColumnIssue(rows[n].row, c, rows[i].row))
  {
    var j, m :| (m < n || (m == n && e.column < c)) && Differs(rows, document, columns, j, m, e);
  }

  lemma NextColumn<T(!new), D(!new), C(!new)>(
      rows: seq<Numbered<T>>, document: T -> D, columns: seq<T -> C>, n: nat, c: nat, issues: seq<ColumnIssue>, i: nat)
    requires Ascending(rows) && ReportsDifferences(rows, document, columns, n, c, issues)
    requires Clash(rows, document, i, n) && c < |columns|
    ensures var last := ColumnIssue(rows[n].row, c, rows[i].row);
            ReportsDifferences(rows, document, columns, n, c + 1,
              if Differs(rows, document, columns, i, n, last) then issues + [last] else issues)
  {
    var last := ColumnIssue(rows[n].row, c, rows[i].row);
    var all := if Differs(rows, document, columns, i, n, last) then issues + [last] else issues;
    var width := c + 1;
    forall e ensures e in all <==> Found(rows, document, columns, n, width, e) {
      FoundInColumn(rows, document, columns, n, c, i, e);
    }
    forall a | 0 <= a < |issues| ensures Earlier(issues[a], last) {
      assert issues[a] in issues;
      FoundBefore(rows, document, columns, n, c, i, issues[a]);
    }
  }

  /** Compares each record with the first record of its document, column by column. */
  method ValidateDocumentConsistency<T(!new), D(==, !new), C(==, !new)>(
      rows: seq<Numbered<T>>, document: T -> D, columns: seq<T -> C>) returns (issues: seq<ColumnIssue>)
    requires Ascending(rows)
    ensures ReportsDifferences(rows, document, columns, |rows|, 0, issues)
    ensures issues == [] <==> Agreeing(rows, document, columns)
  {
    issues := [];
    var firstRecords: map<D, Numbered<T>> := map[];
    for n := 0 to |rows|
      invariant FirstSeen(rows, n, document, Whole, firstRecords)
      invariant ReportsDifferences(rows, document, columns, n, 0, issues)
    {
      firstRecords, issues := CheckDocument(rows, document, columns, n, firstRecords, issues);
    }
    NoDifferencesMeans(rows, document, columns, issues);
  }

  method CheckDocument<T(!new), D(==, !new), C(==, !new)>(
      rows: seq<Numbered<T>>, document: T -> D, columns: seq<T -> C>, n: nat, seen: map<D, Numbered<T>>,
      reported: seq<ColumnIssue>) returns (firstRecords: map<D, Numbered<T>>, issues: seq<ColumnIssue>)
    requires Ascending(rows) && n < |rows| && FirstSeen(rows, n, document, Whole, seen)
    requires ReportsDifferences(rows, document, columns, n, 0, reported)
    ensures FirstSeen(rows, n + 1, document, Whole, firstRecords)
    ensures ReportsDifferences(rows, document, columns, n + 1, 0, issues)
  {
    firstRecords, issues := seen, reported;
    var d := document(rows[n].record);
    FirstSeenStep(rows, n, document, Whole, seen);
    if d !in seen {
      firstRecords := firstRecords[d := rows[n]];
    } else {
      ghost var i := FirstSeenAt(rows, n, document, Whole, seen);
      issues := CompareColumns(rows, document, columns, n, seen[d], issues, i);
    }
    NextRow(rows, document, columns, n, issues);
  }

  method CompareColumns<T(!new), D(!new), C(==, !new)>(
      rows: seq<Numbered<T>>, document: T -> D, columns: seq<T -> C>, n: nat, first: Numbered<T>,
      reported: seq<ColumnIssue>, ghost i: nat) returns (issues: seq<ColumnIssue>)
    requires Ascending(rows) && ReportsDifferences(rows, document, columns, n, 0, reported)
    requires Clash(rows, document, i, n) && first == rows[i]
    ensures ReportsDifferences(rows, document, columns, n, |columns|, issues)
  {
    issues := reported;
    for c := 0 to |columns|
      invariant ReportsDifferences(rows, document, columns, n, c, issues)
    {
      NextColumn(rows, document, columns, n, c, issues, i);
      if columns[c](rows[n].record) != columns[c](first.record) {
        issues := issues + [ColumnIssue(rows[n].row, c, first.row)];
      }
    }
  }

  // ----- the three schemas

  function PoIdentity(po: PoLine): PoKey {
    KeyOfPo(po)
  }

  function ReceiptIdentity(receipt: Receipt): (Code, int) {
    (receipt.receiptId, receipt.line)
  }

  function InvoiceDate(invoice: InvoiceLine): int {
    invoice.date
  }

  function InvoiceCurrency(invoice: InvoiceLine): int {
    invoice.currency
  }

  const INVOICE_COLUMNS: seq<InvoiceLine -> int> := [InvoiceDate, InvoiceCurrency]

  function Records<T>(rows: seq<Numbered<T>>): (records: seq<T>)
    ensures |records| == |rows|
    ensures forall i :: 0 <= i < |rows| ==> records[i] == rows[i].record
  {
    seq(|rows|, i requires 0 <= i < |rows| => rows[i].record)
  }

  /** What the engine relies on is exactly what the loader's passes accept: unique PO and
      receipt keys, and one date and currency per invoice document. Invoice identities may
      repeat (they are kept for review). */
  lemma AcceptanceMeaning(
      orders: seq<Numbered<PoLine>>, receipts: seq<Numbered<Receipt>>, invoices: seq<Numbered<InvoiceLine>>)
    ensures DistinctKeys(orders, PoIdentity) <==> UniquePoKeys(Records(orders))
    ensures DistinctKeys(receipts, ReceiptIdentity) <==> UniqueReceiptKeys(Records(receipts))
    ensures Agreeing(invoices, InvoiceDocument, INVOICE_COLUMNS) <==> ConsistentDocuments(Records(invoices))
  {
    var rows := Records(invoices);
    if Agreeing(invoices, InvoiceDocument, INVOICE_COLUMNS) {
      forall a, b | a in rows && b in rows && a.supplier == b.supplier && a.number == b.number
        ensures a.date == b.date && a.currency == b.currency
      {
        var i :| 0 <= i < |rows| && rows[i] == a;
        var j :| 0 <= j < |rows| && rows[j] == b;
        if i != j {
          AgreeOnDocument(invoices, if i < j then i else j, if i < j then j else i);
        }
      }
    }
    if ConsistentDocuments(rows) {
      forall i, j, c | 0 <= i < j < |invoices| && 0 <= c < |INVOICE_COLUMNS|
                       && InvoiceDocument(invoices[i].record) == InvoiceDocument(invoices[j].record)
        ensures INVOICE_COLUMNS[c](invoices[i].record) == INVOICE_COLUMNS[c](invoices[j].record)
      {
        assert rows[i] in rows && rows[j] in rows;
      }
    }
  }

  lemma AgreeOnDocument(invoices: seq<Numbered<InvoiceLine>>, i: nat, j: nat)
    requires Agreeing(invoices, InvoiceDocument, INVOICE_COLUMNS) && i < j < |invoices|
    requires InvoiceDocument(invoices[i].record) == InvoiceDocument(invoices[j].record)
    ensures invoices[i].record.date == invoices[j].record.date
    ensures invoices[i].record.currency == invoices[j].record.currency
  {
    assert INVOICE_COLUMNS[0](invoices[i].record) == INVOICE_COLUMNS[0](invoices[j].record);
    assert INVOICE_COLUMNS[1](invoices[i].record) == INVOICE_COLUMNS[1](invoices[j].record);
  }
}
