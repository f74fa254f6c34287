/** Grouping and exposure on invoices the loader accepts. */
module AcceptedInvoices {
  import opened Prelude
  import opened Ordering
  import opened Domain
  import opened MoneyRounding
  import opened InvoiceHelpers
  import opened GroupExposure
  import ThreeWay
  import InvoicePo
  import InvoiceReceipt

  lemma SortKeyPrefix(a: InvoiceLine, b: InvoiceLine)
    ensures SortKey(a)[..4] == SortKey(b)[..4] <==> a.date == b.date && IdentityOf(a) == IdentityOf(b)
  {
    assert SortKey(a)[..4] == [a.date as real, a.supplier as real, a.number as real, a.line as real];
    assert SortKey(b)[..4] == [b.date as real, b.supplier as real, b.number as real, b.line as real];
    if SortKey(a)[..4] == SortKey(b)[..4] {
      forall i | 0 <= i < 4 ensures SortKey(a)[i] == SortKey(b)[i] {
        assert SortKey(a)[..4][i] == SortKey(b)[..4][i];
      }
      assert SortKey(a)[0] == SortKey(b)[0] && SortKey(a)[1] == SortKey(b)[1];
      assert SortKey(a)[2] == SortKey(b)[2] && SortKey(a)[3] == SortKey(b)[3];
    }
  }

  lemma IdentityBetween(a: InvoiceLine, b: InvoiceLine, c: InvoiceLine)
    requires LexLeq(SortKey(a), SortKey(b)) && LexLeq(SortKey(b), SortKey(c))
    requires IdentityOf(a) == IdentityOf(c) && a.date == c.date
    ensures IdentityOf(b) == IdentityOf(a)
  {
    SortKeyPrefix(a, c);
    LexBetween(SortKey(a), SortKey(b), SortKey(c), 4);
    SortKeyPrefix(b, a);
  }

  /** In key order, a row between two rows of one identity has that identity. */
  lemma {:induction false} SameIdentityBetween(rows: seq<InvoiceLine>, i: nat, m: nat, j: nat)
    requires Sorted(rows, SortKey) && ConsistentDocuments(rows)
    requires i <= m <= j < |rows| && IdentityOf(rows[i]) == IdentityOf(rows[j])
    ensures IdentityOf(rows[m]) == IdentityOf(rows[i])
  {
    if i < m < j {
      var a, c := rows[i], rows[j];
      assert a in rows && c in rows;
      assert a.date == c.date;
      SortedPairs(rows, SortKey, i, m);
      SortedPairs(rows, SortKey, m, j);
      IdentityBetween(a, rows[m], c);
    }
  }

  lemma {:induction false} FlattenMember(groups: seq<Group>, i: nat) returns (at: nat)
    requires i < |groups|
    ensures at < |Flatten(groups)| && Flatten(groups)[at] == groups[i][0]
  {
    var n := |groups| - 1;
    if i < n {
      at := FlattenMember(groups[..n], i);
    } else {
      at := |Flatten(groups[..n])|;
    }
  }

  lemma FlattenLast(groups: seq<Group>)
    requires groups != []
    ensures var last, all := groups[|groups| - 1], Flatten(groups);
            all != [] && all[|all| - 1] == last[|last| - 1]
  {
  }

  /** A row that belongs to an existing group extends the last group. */
  lemma {:induction false} JoinsLastGroup(groups: seq<Group>, done: seq<InvoiceLine>, row: InvoiceLine)
    requires Sorted(done + [row], SortKey) && ConsistentDocuments(done + [row])
    requires WellGrouped(groups) && Flatten(groups) == done
    ensures var i := FindGroup(groups, IdentityOf(row)); i == |groups| || i == |groups| - 1
  {
    var i := FindGroup(groups, IdentityOf(row));
    if i < |groups| {
      var at := FlattenMember(groups, i);
      FlattenLast(groups);
      LastHasIdentity(done, at, row);
      var last := groups[|groups| - 1];
      assert IdentityOf(last[|last| - 1]) == IdentityOf(last[0]);
      FindUnique(groups, |groups| - 1);
    }
  }

  lemma {:induction false} LastHasIdentity(done: seq<InvoiceLine>, at: nat, row: InvoiceLine)
    requires Sorted(done + [row], SortKey) && ConsistentDocuments(done + [row])
    requires at < |done| && IdentityOf(done[at]) == IdentityOf(row)
    ensures IdentityOf(done[|done| - 1]) == IdentityOf(row)
  {
    SameIdentityBetween(done + [row], at, |done| - 1, |done|);
  }

  lemma {:induction false} SortedPrefix(rows: seq<InvoiceLine>, row: InvoiceLine)
    requires Sorted(rows + [row], SortKey)
    ensures Sorted(rows, SortKey)
  {
    if rows != [] {
      assert (rows + [row])[1..] == rows[1..] + [row];
      SortedPrefix(rows[1..], row);
      forall y | y in rows[1..] ensures LexLeq(SortKey(rows[0]), SortKey(y)) {
        assert y in (rows + [row])[1..];
      }
    }
  }

  lemma {:induction false} RowsContiguous(rows: seq<InvoiceLine>)
    requires Sorted(rows, SortKey) && ConsistentDocuments(rows)
    ensures Flatten(GroupRows(rows)) == rows
  {
    if rows != [] {
      var done, row := rows[..|rows| - 1], rows[|rows| - 1];
      assert rows == done + [row];
      SortedPrefix(done, row);
      RowsContiguous(done);
      GroupRowsWellGrouped(done);
      JoinsLastGroup(GroupRows(done), done, row);
      FlattenAddRow(GroupRows(done), row);
    }
  }

  lemma FlattenAddRow(groups: seq<Group>, row: InvoiceLine)
    requires var i := FindGroup(groups, IdentityOf(row)); i == |groups| || i == |groups| - 1
    ensures Flatten(AddRow(groups, row)) == Flatten(groups) + [row]
  {
    if FindGroup(groups, IdentityOf(row)) < |groups| {
      FlattenExtendLast(groups, row);
    } else {
      FlattenSnoc(groups, [row]);
    }
  }

  lemma FlattenExtendLast(groups: seq<Group>, row: InvoiceLine)
    requires groups != []
    ensures var n := |groups| - 1; Flatten(groups[n := groups[n] + [row]]) == Flatten(groups) + [row]
  {
    var n := |groups| - 1;
    assert groups[n := groups[n] + [row]] == groups[..n] + [groups[n] + [row]];
    FlattenSnoc(groups[..n], groups[n] + [row]);
    assert Flatten(groups) == Flatten(groups[..n]) + groups[n];
  }

  /** Concatenating the groups gives back the sorted rows: results come out in sort order. */
  lemma GroupsAreContiguous(invoices: seq<InvoiceLine>)
    requires ConsistentDocuments(invoices)
    ensures Flatten(GroupsOf(invoices)) == SortedRows(invoices)
  {
    var rows := SortedRows(invoices);
    SortSorted(invoices, SortKey);
    SortMembers(invoices, SortKey);
    RowsContiguous(rows);
  }

  const EARLY := InvoiceLine(1, 1, 1, 1, 1, 1, 1, 1, 1.0, 1.0)
  const OTHER := EARLY.(date := 2, number := 2)
  const LATE := EARLY.(date := 3)

  /** The contiguity needs the loader: rows of one document dated differently are pulled apart. */
  lemma InconsistentDatesSplit()
    ensures SortedRows([EARLY, OTHER, LATE]) == [EARLY, OTHER, LATE]
    ensures Flatten(GroupsOf([EARLY, OTHER, LATE])) == [EARLY, LATE, OTHER]
  {
    ExampleSorted();
    ExampleGroups();
  }

  lemma ExampleSorted()
    ensures SortedRows([EARLY, OTHER, LATE]) == [EARLY, OTHER, LATE]
  {
    var rows := [EARLY, OTHER, LATE];
    assert rows[1..] == [OTHER, LATE] && rows[1..][1..] == [LATE] && [LATE][1..] == [];
    assert SortBy([LATE], SortKey) == [LATE];
    assert SortBy([OTHER, LATE], SortKey) == [OTHER, LATE];
  }

  lemma ExampleGroups()
    ensures Flatten(GroupRows([EARLY, OTHER, LATE])) == [EARLY, LATE, OTHER]
  {
    var rows := [EARLY, OTHER, LATE];
    var groups: seq<Group> := [[EARLY], [OTHER]];
    TwoGroups();
    assert rows[..2] == [EARLY, OTHER];
    FindUnique(groups, 0);
    assert IdentityOf(LATE) == IdentityOf(groups[0][0]) && groups[0] + [LATE] == [EARLY, LATE];
    assert GroupRows(rows) == AddRow(groups, LATE) == [[EARLY, LATE], [OTHER]];
    FlattenTwo([EARLY, LATE], [OTHER]);
  }

  lemma TwoGroups()
    ensures GroupRows([EARLY, OTHER]) == [[EARLY], [OTHER]]
    ensures WellGrouped([[EARLY], [OTHER]])
  {
    assert [EARLY, OTHER][..1] == [EARLY] && [EARLY][..0] == [];
    assert GroupRows([EARLY]) == [[EARLY]];
  }

  lemma FlattenTwo(a: seq<InvoiceLine>, b: seq<InvoiceLine>)
    ensures Flatten([a, b]) == a + b
  {
    assert [a, b][..1] == [a] && [a][..0] == [];
    assert Flatten([a]) == [] + a;
  }

  /** Every row of a group carries the group's currency. */
  lemma GroupHasOneCurrency(invoices: seq<InvoiceLine>, i: nat, j: nat)
    requires ConsistentDocuments(invoices)
    requires i < |GroupsOf(invoices)| && j < |GroupsOf(invoices)[i]|
    ensures GroupsOf(invoices)[i][j].currency == GroupsOf(invoices)[i][0].currency
    ensures GroupsOf(invoices)[i][j] in invoices
  {
    var groups := GroupsOf(invoices);
    GroupRowsWellGrouped(SortedRows(invoices));
    GroupsElements(invoices);
    RowInFlatten(groups, i, j);
    RowInFlatten(groups, i, 0);
    assert groups[i][j] in multiset(Flatten(groups)) && groups[i][0] in multiset(Flatten(groups));
    assert groups[i][j] in multiset(invoices) && groups[i][0] in multiset(invoices);
  }

  lemma {:induction false} RowInFlatten(groups: seq<Group>, i: nat, j: nat)
    requires i < |groups| && j < |groups[i]|
    ensures groups[i][j] in Flatten(groups)
  {
    var n := |groups| - 1;
    if i < n {
      RowInFlatten(groups[..n], i, j);
    }
  }

  // ----- what a group contributes

  /** Rounded amounts of a group's rows. */
  function LineAmounts(group: Group, config: Config): (amounts: seq<Money>)
    ensures |amounts| == |group|
  {
    seq(|group|, j requires 0 <= j < |group| => RoundMoney(LineAmount(group[j]), config))
  }

  lemma DisputeBounded(
      invoice: InvoiceLine, po: PoLine, supported: real, issues: seq<Issue>, config: Config)
    requires supported >= 0.0
    ensures DisputedAmount(invoice, po, supported, issues, config) <= RoundMoney(LineAmount(invoice), config)
    ensures DuplicateInvoice in issues ==>
      DisputedAmount(invoice, po, supported, issues, config) == RoundMoney(LineAmount(invoice), config)
  {
    RoundZero(config);
    var accepted := if PriceMismatch in issues then po.price else invoice.price;
    RoundMonotone(Uncovered(invoice, supported, accepted), LineAmount(invoice), config);
  }

  /** A three-way dispute lies between zero and the line's rounded amount, and a line of a
      multi-row group is disputed in full. */
  lemma ThreeWayBounded(
      invoice: InvoiceLine, orders: Orders, receipts: seq<Receipt>, before: seq<Group>,
      duplicate: bool, allowed: bool, config: Config)
    ensures var full := RoundMoney(LineAmount(invoice), config);
            var row := ThreeWay.LineResult(invoice, orders, receipts, before, duplicate, allowed, config);
            row.disputed <= full && (duplicate ==> row.disputed == full)
  {
    match Resolve(invoice, orders)
    case Unresolved(_) =>
    case Resolved(po) =>
      var prior := Prior(before, orders, PoKeyOf(invoice));
      var received := ThreeWay.ReceivedFor(receipts, po);
      var found := ThreeWay.LineIssues(invoice, po, received, prior, duplicate, config);
      OrderIssuesMembers(found);
      DisputeBounded(
        invoice, po, ThreeWay.SupportedQuantity(invoice.quantity, po.ordered, received, prior, allowed),
        OrderIssues(found), config);
  }

  /** The same for the invoice-PO mode. */
  lemma InvoicePoBounded(
      invoice: InvoiceLine, orders: Orders, before: seq<Group>, duplicate: bool, ambiguous: bool, config: Config)
    ensures var full := RoundMoney(LineAmount(invoice), config);
            var row := InvoicePo.LineResult(invoice, orders, before, duplicate, ambiguous, config);
            row.disputed <= full && (duplicate ==> row.disputed == full)
  {
    match Resolve(invoice, orders)
    case Unresolved(_) =>
    case Resolved(po) =>
      var prior := Prior(before, orders, PoKeyOf(invoice));
      var found := InvoicePo.LineIssues(invoice, po, prior, duplicate, config);
      OrderIssuesMembers(found);
      DisputeBounded(
        invoice, po, InvoicePo.SupportedQuantity(invoice.quantity, po.ordered, prior, ambiguous),
        OrderIssues(found), config);
  }

  /** The same for the unsupported amount of the invoice-receipt mode. */
  lemma InvoiceReceiptBounded(
      invoice: InvoiceLine, receipts: seq<Receipt>, before: seq<Group>, duplicate: bool, ambiguous: bool,
      config: Config)
    ensures var full := RoundMoney(LineAmount(invoice), config);
            var row := InvoiceReceipt.LineResult(invoice, receipts, before, duplicate, ambiguous, config);
            row.unsupported <= full && (duplicate ==> row.unsupported == full)
  {
    var row := InvoiceReceipt.LineResult(invoice, receipts, before, duplicate, ambiguous, config);
    UnsupportedBounded(invoice, row.supported, duplicate, config);
  }

  lemma UnsupportedBounded(invoice: InvoiceLine, supported: real, duplicate: bool, config: Config)
    requires 0.0 <= supported <= invoice.quantity
    ensures var amount := RoundMoney(InvoiceReceipt.UnsupportedAmount(invoice, supported, duplicate), config);
            var full := RoundMoney(LineAmount(invoice), config);
            amount <= full && (duplicate ==> amount == full)
  {
    PricedMonotone(
      if duplicate then invoice.quantity else invoice.quantity - supported, invoice.quantity, invoice.price);
    RoundMonotone(InvoiceReceipt.UnsupportedAmount(invoice, supported, duplicate), LineAmount(invoice), config);
  }

  /** Sum over the groups in one currency of an amount per group. */
  function GroupTotal(groups: seq<Group>, maxima: seq<Money>, currency: Code): nat
    requires |maxima| == |groups|
  {
    if groups == [] then 0
    else
      var n := |groups| - 1;
      GroupTotal(groups[..n], maxima[..n], currency)
      + if forall row :: row in groups[n] ==> row.currency == currency then maxima[n] else 0
  }

  lemma {:induction false} ExposureTotal(
      groups: seq<Group>, amounts: seq<seq<Money>>, maxima: seq<Money>, currency: Code)
    requires Aligned(groups, amounts) && |maxima| == |groups|
    requires forall i :: 0 <= i < |groups| ==> maxima[i] == MaxAmount(amounts[i])
    requires forall i, j :: 0 <= i < |groups| && 0 <= j < |groups[i]| ==> groups[i][j].currency == groups[i][0].currency
    ensures TotalFor(ExposuresOf(groups, amounts), currency) == GroupTotal(groups, maxima, currency)
  {
    if groups != [] {
      var n := |groups| - 1;
      ExposureTotal(groups[..n], amounts[..n], maxima[..n], currency);
      ExposuresSnoc(groups[..n], amounts[..n], groups[n], amounts[n]);
      assert groups[..n] + [groups[n]] == groups && amounts[..n] + [amounts[n]] == amounts;
      TotalSnoc(ExposuresOf(groups[..n], amounts[..n]), Exposure(groups[n][0].currency, maxima[n]), currency);
      assert groups[n][0] in groups[n];
    }
  }

  /** The largest amount of each group. */
  function Maxima(amounts: seq<seq<Money>>): (maxima: seq<Money>)
    requires forall i :: 0 <= i < |amounts| ==> amounts[i] != []
    ensures |maxima| == |amounts|
    ensures forall i :: 0 <= i < |amounts| ==> maxima[i] == MaxAmount(amounts[i])
  {
    seq(|amounts|, i requires 0 <= i < |amounts| => MaxAmount(amounts[i]))
  }

  /** Every currency's entry is the sum over its groups of the group's largest amount, and a
      multi-row group contributes its largest rounded line amount, once. */
  ghost predicate Contributes(
    groups: seq<Group>, amounts: seq<seq<Money>>, disputed: seq<CurrencyAmount>, config: Config)
  {
    && Aligned(groups, amounts)
    && (forall c :: DisputedIn(disputed, c) == GroupTotal(groups, Maxima(amounts), c))
    && (forall i :: 0 <= i < |groups| && |groups[i]| > 1 ==>
          Maxima(amounts)[i] == MaxAmount(LineAmounts(groups[i], config)))
  }

  lemma GroupsContribute(invoices: seq<InvoiceLine>, amounts: seq<seq<Money>>, config: Config)
    requires ConsistentDocuments(invoices) && Aligned(GroupsOf(invoices), amounts)
    requires forall i, j :: 0 <= i < |amounts| && 0 <= j < |amounts[i]| && |amounts[i]| > 1 ==>
      amounts[i][j] == RoundMoney(LineAmount(GroupsOf(invoices)[i][j]), config)
    ensures var exposures := ExposuresOf(GroupsOf(invoices), amounts);
            Contributes(GroupsOf(invoices), amounts, Amounts(SortedCurrencies(exposures), exposures, config), config)
  {
    var groups := GroupsOf(invoices);
    var exposures := ExposuresOf(groups, amounts);
    var disputed := Amounts(SortedCurrencies(exposures), exposures, config);
    forall i, j | 0 <= i < |groups| && 0 <= j < |groups[i]| ensures groups[i][j].currency == groups[i][0].currency {
      GroupHasOneCurrency(invoices, i, j);
    }
    forall i | 0 <= i < |groups| && |groups[i]| > 1 ensures amounts[i] == LineAmounts(groups[i], config) {
    }
    forall c ensures DisputedIn(disputed, c) == GroupTotal(groups, Maxima(amounts), c) {
      ExposureTotal(groups, amounts, Maxima(amounts), c);
      SummaryDisputes(exposures, config, c);
    }
  }

  /** On accepted invoices each currency's disputed total is exactly the sum, over the groups in
      that currency, of the group's largest dispute; the summary's second rounding is a no-op. */
  lemma ThreeWayTotals(lines: seq<PoLine>, receipts: seq<Receipt>, invoices: seq<InvoiceLine>, config: Config)
    requires ConsistentDocuments(invoices)
    ensures Contributes(
              GroupsOf(invoices),
              Columns(ThreeWay.RowsOf(GroupsOf(invoices), OrdersOf(lines), receipts, config), ThreeWay.DisputeOf),
              ThreeWay.Report(lines, receipts, invoices, config).summary.disputed, config)
  {
    var groups, orders := GroupsOf(invoices), OrdersOf(lines);
    var amounts := Columns(ThreeWay.RowsOf(groups, orders, receipts, config), ThreeWay.DisputeOf);
    forall i, j | 0 <= i < |amounts| && 0 <= j < |amounts[i]| && |amounts[i]| > 1
      ensures amounts[i][j] == RoundMoney(LineAmount(groups[i][j]), config)
    {
      ThreeWayBounded(groups[i][j], orders, receipts, groups[..i], true, !Ambiguous(groups[i]), config);
    }
    GroupsContribute(invoices, amounts, config);
  }

  /** The same for the invoice-PO mode. */
  lemma InvoicePoTotals(lines: seq<PoLine>, invoices: seq<InvoiceLine>, config: Config)
    requires ConsistentDocuments(invoices)
    ensures Contributes(
              GroupsOf(invoices),
              Columns(InvoicePo.RowsOf(GroupsOf(invoices), OrdersOf(lines), config), InvoicePo.DisputeOf),
              InvoicePo.Report(lines, invoices, config).summary.disputed, config)
  {
    var groups, orders := GroupsOf(invoices), OrdersOf(lines);
    var amounts := Columns(InvoicePo.RowsOf(groups, orders, config), InvoicePo.DisputeOf);
    forall i, j | 0 <= i < |amounts| && 0 <= j < |amounts[i]| && |amounts[i]| > 1
      ensures amounts[i][j] == RoundMoney(LineAmount(groups[i][j]), config)
    {
      InvoicePoBounded(groups[i][j], orders, groups[..i], true, Ambiguous(groups[i]), config);
    }
    GroupsContribute(invoices, amounts, config);
  }

  /** The same for the unsupported amounts of the invoice-receipt mode. */
  lemma InvoiceReceiptTotals(receipts: seq<Receipt>, invoices: seq<InvoiceLine>, config: Config)
    requires ConsistentDocuments(invoices)
    ensures Contributes(
              GroupsOf(invoices),
              Columns(InvoiceReceipt.RowsOf(GroupsOf(invoices), receipts, config), InvoiceReceipt.UnsupportedOf),
              InvoiceReceipt.Report(receipts, invoices, config).summary.disputed, config)
  {
    var groups := GroupsOf(invoices);
    var amounts := Columns(InvoiceReceipt.RowsOf(groups, receipts, config), InvoiceReceipt.UnsupportedOf);
    forall i, j | 0 <= i < |amounts| && 0 <= j < |amounts[i]| && |amounts[i]| > 1
      ensures amounts[i][j] == RoundMoney(LineAmount(groups[i][j]), config)
    {
      InvoiceReceiptBounded(groups[i][j], receipts, groups[..i], true, Ambiguous(groups[i]), config);
    }
    GroupsContribute(invoices, amounts, config);
  }
}
