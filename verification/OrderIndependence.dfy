/** Reports do not depend on the order of input rows. */
module OrderIndependence {
  import opened Prelude
  import opened Ordering
  import opened Domain
  import opened InvoiceHelpers
  import opened ReceiptTotals
  import opened GroupExposure
  import ThreeWay
  import InvoicePo
  import InvoiceReceipt
  import PoReceipt

  lemma SameMembers<T>(a: seq<T>, b: seq<T>)
    requires multiset(a) == multiset(b)
    ensures |a| == |b|
    ensures forall x :: x in a <==> x in b
  {
    assert |multiset(a)| == |multiset(b)|;
    assert forall x :: x in a <==> x in multiset(a);
    assert forall x :: x in b <==> x in multiset(b);
  }

  lemma SameGroups(a: seq<InvoiceLine>, b: seq<InvoiceLine>)
    requires multiset(a) == multiset(b)
    ensures GroupsOf(a) == GroupsOf(b) && DocumentsOf(a) == DocumentsOf(b)
  {
    forall x, y | x in a && y in a && SortKey(x) == SortKey(y) ensures x == y {
      SortKeyInjective(x, y);
    }
    SortOrderIndependent(a, b, SortKey);
    SameMembers(a, b);
  }

  lemma SameOrders(a: seq<PoLine>, b: seq<PoLine>)
    requires multiset(a) == multiset(b) && UniquePoKeys(a) && UniquePoKeys(b)
    ensures OrdersOf(a) == OrdersOf(b)
  {
    SameMembers(a, b);
    forall k
      ensures k in IndexOf(a) <==> k in IndexOf(b)
      ensures k in IndexOf(a) && k in IndexOf(b) ==> IndexOf(a)[k] == IndexOf(b)[k]
    {
      IndexMembers(a, k);
      IndexMembers(b, k);
      if k in IndexOf(a) {
        IndexComplete(b, IndexOf(a)[k]);
      }
    }
    assert IndexOf(a).Keys == IndexOf(b).Keys;
  }

  /** Uniqueness of PO keys does not depend on row order either. */
  lemma UniqueKeysCarryOver(a: seq<PoLine>, b: seq<PoLine>)
    requires multiset(a) == multiset(b) && UniquePoKeys(a)
    ensures UniquePoKeys(b)
  {
    SameMembers(a, b);
    forall i, j | 0 <= i < j < |b| ensures KeyOfPo(b[i]) != KeyOfPo(b[j]) {
      if KeyOfPo(b[i]) == KeyOfPo(b[j]) {
        assert b[i] in a && b[j] in a;
        assert b[i] == b[j];
        OccursTwice(b, i, j);
        DistinctOnce(a, b[i]);
      }
    }
  }

  lemma ThreeWayLineSame(
      invoice: InvoiceLine, orders: Orders, a: seq<Receipt>, b: seq<Receipt>, before: seq<Group>,
      duplicate: bool, allowed: bool, config: Config)
    requires multiset(a) == multiset(b)
    ensures ThreeWay.LineResult(invoice, orders, a, before, duplicate, allowed, config)
         == ThreeWay.LineResult(invoice, orders, b, before, duplicate, allowed, config)
  {
    match Resolve(invoice, orders)
    case Unresolved(_) =>
    case Resolved(po) => ReceivedOrderIndependent(a, b, PoTarget(po));
  }

  lemma ThreeWayRowsSame(
      groups: seq<Group>, orders: Orders, a: seq<Receipt>, b: seq<Receipt>, config: Config)
    requires multiset(a) == multiset(b)
    ensures ThreeWay.RowsOf(groups, orders, a, config) == ThreeWay.RowsOf(groups, orders, b, config)
  {
    forall i, j | 0 <= i < |groups| && 0 <= j < |groups[i]|
      ensures ThreeWay.RowsOf(groups, orders, a, config)[i][j] == ThreeWay.RowsOf(groups, orders, b, config)[i][j]
    {
      ThreeWayLineSame(
        groups[i][j], orders, a, b, groups[..i], |groups[i]| > 1, !Ambiguous(groups[i]), config);
    }
    forall i | 0 <= i < |groups|
      ensures ThreeWay.RowsOf(groups, orders, a, config)[i] == ThreeWay.RowsOf(groups, orders, b, config)[i]
    {
    }
  }

  lemma {:induction false} ReceiptPriorSame(before: seq<Group>, a: seq<Receipt>, b: seq<Receipt>, target: Target)
    requires multiset(a) == multiset(b)
    ensures InvoiceReceipt.Prior(before, a, target) == InvoiceReceipt.Prior(before, b, target)
  {
    if before != [] {
      ReceiptPriorSame(before[..|before| - 1], a, b, target);
      ReceivedOrderIndependent(a, b, target);
    }
  }

  lemma InvoiceReceiptLineSame(
      invoice: InvoiceLine, a: seq<Receipt>, b: seq<Receipt>, before: seq<Group>,
      duplicate: bool, ambiguous: bool, config: Config)
    requires multiset(a) == multiset(b)
    ensures InvoiceReceipt.LineResult(invoice, a, before, duplicate, ambiguous, config)
         == InvoiceReceipt.LineResult(invoice, b, before, duplicate, ambiguous, config)
  {
    ReceivedOrderIndependent(a, b, TargetOf(invoice));
    ReceiptPriorSame(before, a, b, TargetOf(invoice));
    SameMembers(a, b);
    assert InvoiceReceipt.Referenced(a, invoice) == InvoiceReceipt.Referenced(b, invoice);
  }

  lemma InvoiceReceiptRowsSame(groups: seq<Group>, a: seq<Receipt>, b: seq<Receipt>, config: Config)
    requires multiset(a) == multiset(b)
    ensures InvoiceReceipt.RowsOf(groups, a, config) == InvoiceReceipt.RowsOf(groups, b, config)
  {
    forall i, j | 0 <= i < |groups| && 0 <= j < |groups[i]|
      ensures InvoiceReceipt.RowsOf(groups, a, config)[i][j] == InvoiceReceipt.RowsOf(groups, b, config)[i][j]
    {
      InvoiceReceiptLineSame(
        groups[i][j], a, b, groups[..i], |groups[i]| > 1, Ambiguous(groups[i]), config);
    }
    forall i | 0 <= i < |groups|
      ensures InvoiceReceipt.RowsOf(groups, a, config)[i] == InvoiceReceipt.RowsOf(groups, b, config)[i]
    {
    }
  }

  /** Any permutation of the invoice rows, the receipt rows and the (uniquely keyed) PO rows
      gives the same results and the same summary in every invoice mode. */
  lemma {:induction false} ReportsOrderIndependent(
      lines: seq<PoLine>, receipts: seq<Receipt>, invoices: seq<InvoiceLine>,
      lines': seq<PoLine>, receipts': seq<Receipt>, invoices': seq<InvoiceLine>, config: Config)
    requires multiset(lines) == multiset(lines') && UniquePoKeys(lines)
    requires multiset(receipts) == multiset(receipts')
    requires multiset(invoices) == multiset(invoices')
    ensures ThreeWay.Report(lines, receipts, invoices, config) == ThreeWay.Report(lines', receipts', invoices', config)
    ensures InvoicePo.Report(lines, invoices, config) == InvoicePo.Report(lines', invoices', config)
    ensures InvoiceReceipt.Report(receipts, invoices, config) == InvoiceReceipt.Report(receipts', invoices', config)
  {
    UniqueKeysCarryOver(lines, lines');
    SameOrders(lines, lines');
    SameGroups(invoices, invoices');
    SameMembers(invoices, invoices');
    ThreeWayRowsSame(GroupsOf(invoices), OrdersOf(lines), receipts, receipts', config);
    InvoiceReceiptRowsSame(GroupsOf(invoices), receipts, receipts', config);
  }

  // ----- the receiving mode

  lemma SameReceiptOrder(a: seq<Receipt>, b: seq<Receipt>)
    requires multiset(a) == multiset(b) && UniqueReceiptKeys(a)
    ensures SortBy(a, InvoiceReceipt.ReceiptKey) == SortBy(b, InvoiceReceipt.ReceiptKey)
  {
    forall x, y | x in a && y in a && InvoiceReceipt.ReceiptKey(x) == InvoiceReceipt.ReceiptKey(y) ensures x == y {
      var i :| 0 <= i < |a| && a[i] == x;
      var j :| 0 <= j < |a| && a[j] == y;
      assert InvoiceReceipt.ReceiptKey(x)[0] == x.receiptId as real;
      assert InvoiceReceipt.ReceiptKey(x)[1] == x.line as real;
      assert InvoiceReceipt.ReceiptKey(y)[0] == y.receiptId as real;
      assert InvoiceReceipt.ReceiptKey(y)[1] == y.line as real;
      assert (a[i].receiptId, a[i].line) == (a[j].receiptId, a[j].line);
    }
    SortOrderIndependent(a, b, InvoiceReceipt.ReceiptKey);
  }

  lemma PoSortKeyInjective(a: PoKey, b: PoKey)
    requires PoReceipt.PoSortKey(a) == PoReceipt.PoSortKey(b)
    ensures a == b
  {
    assert PoReceipt.PoSortKey(a)[0] == a.number as real && PoReceipt.PoSortKey(a)[1] == a.line as real;
    assert PoReceipt.PoSortKey(b)[0] == b.number as real && PoReceipt.PoSortKey(b)[1] == b.line as real;
  }

  lemma SameKeyOrder(a: seq<PoLine>, b: seq<PoLine>)
    requires OrdersOf(a) == OrdersOf(b)
    ensures PoReceipt.SortedKeys(a) == PoReceipt.SortedKeys(b)
  {
    var keys, keys' := PoReceipt.KeysOf(a), PoReceipt.KeysOf(b);
    PoReceipt.KeysMeaning(a);
    PoReceipt.KeysMeaning(b);
    forall k ensures multiset(keys)[k] == multiset(keys')[k] {
      DistinctOnce(keys, k);
      DistinctOnce(keys', k);
      assert k in multiset(keys) <==> k in keys;
      assert k in multiset(keys') <==> k in keys';
    }
    assert multiset(keys) == multiset(keys');
    forall x, y | x in keys && y in keys && PoReceipt.PoSortKey(x) == PoReceipt.PoSortKey(y) ensures x == y {
      PoSortKeyInjective(x, y);
    }
    SortOrderIndependent(keys, keys', PoReceipt.PoSortKey);
  }

  /** The receiving report does not depend on row order either, once PO and receipt keys are
      unique: orphans come out in receipt order and PO lines in key order. */
  lemma ReceivingOrderIndependent(
      lines: seq<PoLine>, receipts: seq<Receipt>, lines': seq<PoLine>, receipts': seq<Receipt>, config: Config)
    requires multiset(lines) == multiset(lines') && UniquePoKeys(lines)
    requires multiset(receipts) == multiset(receipts') && UniqueReceiptKeys(receipts)
    ensures PoReceipt.Report(lines, receipts, config) == PoReceipt.Report(lines', receipts', config)
  {
    UniqueKeysCarryOver(lines, lines');
    SameOrders(lines, lines');
    SameKeyOrder(lines, lines');
    SameReceiptOrder(receipts, receipts');
    SameMembers(lines, lines');
    SameMembers(receipts, receipts');
    PoReceipt.SortedKeysMeaning(lines);
    PoReceipt.SameFulfillment(PoReceipt.SortedKeys(lines), OrdersOf(lines), receipts, receipts', config);
  }
}
