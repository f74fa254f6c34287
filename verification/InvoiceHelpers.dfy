/** Invoice identity, PO resolution, dispute, capacity and summary helpers shared by the
    three invoice modes. */
module InvoiceHelpers {
  import opened Prelude
  import opened Ordering
  import opened Domain
  import opened MoneyRounding

  // ----- identity, target, sort key

  function IdentityOf(invoice: InvoiceLine): Identity {
    Identity(invoice.supplier, invoice.number, invoice.line)
  }

  function TargetOf(invoice: InvoiceLine): Target {
    Target(invoice.poNumber, invoice.poLine, invoice.item)
  }

  function PoKeyOf(invoice: InvoiceLine): PoKey {
    PoKey(invoice.poNumber, invoice.poLine)
  }

  function SortKey(invoice: InvoiceLine): Key {
    [invoice.date as real, invoice.supplier as real, invoice.number as real, invoice.line as real,
     invoice.poNumber as real, invoice.poLine as real, invoice.item as real, invoice.quantity,
     invoice.price, invoice.currency as real]
  }

  /** The sort key covers all ten fields, so rows with equal keys are equal rows. */
  lemma SortKeyInjective(a: InvoiceLine, b: InvoiceLine)
    requires SortKey(a) == SortKey(b)
    ensures a == b
  {
    forall i | 0 <= i < 10 ensures SortKey(a)[i] == SortKey(b)[i] {}
    assert SortKey(a)[0] == a.date as real && SortKey(b)[0] == b.date as real;
    assert SortKey(a)[1] == a.supplier as real && SortKey(b)[1] == b.supplier as real;
    assert SortKey(a)[2] == a.number as real && SortKey(b)[2] == b.number as real;
    assert SortKey(a)[3] == a.line as real && SortKey(b)[3] == b.line as real;
    assert SortKey(a)[4] == a.poNumber as real && SortKey(b)[4] == b.poNumber as real;
    assert SortKey(a)[5] == a.poLine as real && SortKey(b)[5] == b.poLine as real;
    assert SortKey(a)[6] == a.item as real && SortKey(b)[6] == b.item as real;
    assert SortKey(a)[7] == a.quantity && SortKey(b)[7] == b.quantity;
    assert SortKey(a)[8] == a.price && SortKey(b)[8] == b.price;
    assert SortKey(a)[9] == a.currency as real && SortKey(b)[9] == b.currency as real;
  }

  // ----- grouping

  /** Position of the group with the given identity, or the number of groups. */
  function FindGroup(groups: seq<Group>, id: Identity): (i: nat)
    ensures i <= |groups|
    ensures i < |groups| ==> IdentityOf(groups[i][0]) == id
    ensures forall j :: 0 <= j < i ==> IdentityOf(groups[j][0]) != id
    decreases |groups|
  {
    if groups == [] then 0
    else if IdentityOf(groups[0][0]) == id then 0
    else 1 + FindGroup(groups[1..], id)
  }

  function AddRow(groups: seq<Group>, row: InvoiceLine): seq<Group> {
    var i := FindGroup(groups, IdentityOf(row));
    if i < |groups| then groups[i := groups[i] + [row]] else groups + [[row]]
  }

  /** Rows grouped by identity, groups in order of first appearance. */
  function GroupRows(rows: seq<InvoiceLine>): seq<Group> {
    if rows == [] then [] else AddRow(GroupRows(rows[..|rows| - 1]), rows[|rows| - 1])
  }

  function SortedRows(invoices: seq<InvoiceLine>): seq<InvoiceLine> {
    SortBy(invoices, SortKey)
  }

  function GroupsOf(invoices: seq<InvoiceLine>): seq<Group> {
    GroupRows(SortedRows(invoices))
  }

  ghost predicate WellGrouped(groups: seq<Group>) {
    && (forall i, j :: 0 <= i < |groups| && 0 <= j < |groups[i]| ==>
          IdentityOf(groups[i][j]) == IdentityOf(groups[i][0]))
    && (forall i, j :: 0 <= i < j < |groups| ==>
          IdentityOf(groups[i][0]) != IdentityOf(groups[j][0]))
  }

  lemma {:induction false} GroupRowsWellGrouped(rows: seq<InvoiceLine>)
    ensures WellGrouped(GroupRows(rows))
  {
    if rows != [] {
      GroupRowsWellGrouped(rows[..|rows| - 1]);
    }
  }

  function RowsWithIdentity(rows: seq<InvoiceLine>, id: Identity): seq<InvoiceLine> {
    if rows == [] then []
    else RowsWithIdentity(rows[..|rows| - 1], id)
         + if IdentityOf(rows[|rows| - 1]) == id then [rows[|rows| - 1]] else []
  }

  /** A group lists exactly the rows that share its identity, in their order of arrival;
      an identity without a group has no rows. */
  lemma {:induction false} GroupRowsMeaning(rows: seq<InvoiceLine>, id: Identity)
    ensures RowsWithIdentity(rows, id) == GroupWithIdentity(GroupRows(rows), id)
  {
    if rows != [] {
      var before := GroupRows(rows[..|rows| - 1]);
      GroupRowsMeaning(rows[..|rows| - 1], id);
      GroupRowsWellGrouped(rows[..|rows| - 1]);
      AddRowExtends(before, rows[|rows| - 1], id);
    }
  }

  function GroupWithIdentity(groups: seq<Group>, id: Identity): seq<InvoiceLine> {
    var i := FindGroup(groups, id);
    if i < |groups| then groups[i] else []
  }

  lemma FindUnique(groups: seq<Group>, i: nat)
    requires WellGrouped(groups) && i < |groups|
    ensures FindGroup(groups, IdentityOf(groups[i][0])) == i
  {
  }

  /** Growing a group leaves every group's identity as it was. */
  lemma GrowGroup(groups: seq<Group>, i: nat, row: InvoiceLine)
    requires WellGrouped(groups) && i < |groups| && IdentityOf(groups[i][0]) == IdentityOf(row)
    ensures var after: seq<Group> := groups[i := groups[i] + [row]];
            && WellGrouped(after)
            && forall id :: GroupWithIdentity(after, id)
                 == GroupWithIdentity(groups, id) + if IdentityOf(row) == id then [row] else []
  {
    var after: seq<Group> := groups[i := groups[i] + [row]];
    assert forall j :: 0 <= j < |groups| ==> IdentityOf(after[j][0]) == IdentityOf(groups[j][0]);
    assert WellGrouped(after);
    forall id ensures GroupWithIdentity(after, id)
                   == GroupWithIdentity(groups, id) + if IdentityOf(row) == id then [row] else []
    {
      SameFind(groups, after, id);
      if IdentityOf(row) == id {
        FindUnique(groups, i);
      }
    }
  }

  /** The search looks at identities only. */
  lemma {:induction false} SameFind(groups: seq<Group>, after: seq<Group>, id: Identity)
    requires |groups| == |after|
    requires forall j :: 0 <= j < |groups| ==> IdentityOf(after[j][0]) == IdentityOf(groups[j][0])
    ensures FindGroup(after, id) == FindGroup(groups, id)
    decreases |groups|
  {
    if groups != [] {
      assert forall j :: 0 <= j < |groups| - 1 ==> after[1..][j] == after[j + 1] && groups[1..][j] == groups[j + 1];
      SameFind(groups[1..], after[1..], id);
    }
  }

  lemma {:induction false} FindAppended(groups: seq<Group>, row: InvoiceLine, id: Identity)
    ensures FindGroup(groups + [[row]], id)
         == if FindGroup(groups, id) < |groups| then FindGroup(groups, id)
            else if IdentityOf(row) == id then |groups| else |groups| + 1
    decreases |groups|
  {
    var after: seq<Group> := groups + [[row]];
    if groups == [] {
      assert after[0][0] == row && after[1..] == [];
    } else {
      assert after[1..] == groups[1..] + [[row]];
      FindAppended(groups[1..], row, id);
    }
  }

  /** A group for a new identity. */
  lemma NewGroup(groups: seq<Group>, row: InvoiceLine)
    requires WellGrouped(groups)
    requires forall j :: 0 <= j < |groups| ==> IdentityOf(groups[j][0]) != IdentityOf(row)
    ensures WellGrouped(groups + [[row]])
  {
    var after: seq<Group> := groups + [[row]];
    forall i, j | 0 <= i < |after| && 0 <= j < |after[i]| ensures IdentityOf(after[i][j]) == IdentityOf(after[i][0]) {
      if i < |groups| {
        assert after[i] == groups[i];
      }
    }
    forall i, j | 0 <= i < j < |after| ensures IdentityOf(after[i][0]) != IdentityOf(after[j][0]) {
      assert after[i] == groups[i];
      if j < |groups| {
        assert after[j] == groups[j];
      }
    }
  }

  lemma {:induction false} NewGroupRows(groups: seq<Group>, row: InvoiceLine, id: Identity)
    requires FindGroup(groups, IdentityOf(row)) == |groups|
    ensures GroupWithIdentity(groups + [[row]], id)
         == GroupWithIdentity(groups, id) + if IdentityOf(row) == id then [row] else []
  {
    FindAppended(groups, row, id);
  }

  lemma AddRowExtends(groups: seq<Group>, row: InvoiceLine, id: Identity)
    requires WellGrouped(groups)
    ensures WellGrouped(AddRow(groups, row))
    ensures GroupWithIdentity(AddRow(groups, row), id)
         == GroupWithIdentity(groups, id) + if IdentityOf(row) == id then [row] else []
  {
    var i := FindGroup(groups, IdentityOf(row));
    if i < |groups| {
      GrowGroup(groups, i, row);
    } else {
      NewGroup(groups, row);
      NewGroupRows(groups, row, id);
    }
  }

  lemma {:induction false} FlattenUpdate(groups: seq<seq<InvoiceLine>>, i: nat, row: InvoiceLine)
    requires i < |groups|
    ensures multiset(Flatten(groups[i := groups[i] + [row]])) == multiset(Flatten(groups)) + multiset{row}
  {
    var n := |groups| - 1;
    var updated := groups[i := groups[i] + [row]];
    if i == n {
      assert updated[..n] == groups[..n];
    } else {
      FlattenUpdate(groups[..n], i, row);
      assert updated[..n] == groups[..n][i := groups[i] + [row]];
    }
  }

  /** Grouping neither loses nor invents rows. */
  lemma {:induction false} GroupRowsElements(rows: seq<InvoiceLine>)
    ensures multiset(Flatten(GroupRows(rows))) == multiset(rows)
  {
    if rows != [] {
      var before := rows[..|rows| - 1];
      var row := rows[|rows| - 1];
      GroupRowsElements(before);
      assert rows == before + [row];
      var groups := GroupRows(before);
      var i := FindGroup(groups, IdentityOf(row));
      if i < |groups| {
        FlattenUpdate(groups, i, row);
      } else {
        FlattenSnoc(groups, [row]);
      }
    }
  }

  lemma GroupsElements(invoices: seq<InvoiceLine>)
    ensures multiset(Flatten(GroupsOf(invoices))) == multiset(invoices)
    ensures |Flatten(GroupsOf(invoices))| == |invoices|
  {
    SortByCorrect(invoices, SortKey);
    GroupRowsElements(SortedRows(invoices));
    assert |multiset(Flatten(GroupsOf(invoices)))| == |multiset(invoices)|;
  }

  /** The insertion-ordered dictionary (its keys in order, its lists) holds these groups. */
  ghost predicate Represents(order: seq<Identity>, lists: map<Identity, Group>, groups: seq<Group>) {
    && |order| == |groups|
    && (forall i :: 0 <= i < |order| ==>
          order[i] == IdentityOf(groups[i][0]) && order[i] in lists && lists[order[i]] == groups[i])
    && (forall id :: id in lists ==> id in order)
  }

  lemma RepresentsAddRow(order: seq<Identity>, lists: map<Identity, Group>, groups: seq<Group>, row: InvoiceLine)
    requires Represents(order, lists, groups) && WellGrouped(groups)
    ensures var id := IdentityOf(row);
            if id in lists then Represents(order, lists[id := lists[id] + [row]], AddRow(groups, row))
            else Represents(order + [id], lists[id := [row]], AddRow(groups, row))
  {
    var id := IdentityOf(row);
    if id in lists {
      var j :| 0 <= j < |order| && order[j] == id;
      FindUnique(groups, j);
      RepresentsGrown(order, lists, groups, j, row);
    } else {
      assert id !in order by {
        assert forall i :: 0 <= i < |order| ==> order[i] in lists;
      }
      assert FindGroup(groups, id) == |groups|;
      RepresentsNew(order, lists, groups, row);
    }
  }

  lemma RepresentsGrown(
      order: seq<Identity>, lists: map<Identity, Group>, groups: seq<Group>, j: nat, row: InvoiceLine)
    requires Represents(order, lists, groups) && WellGrouped(groups)
    requires j < |order| && order[j] == IdentityOf(row)
    ensures var id := IdentityOf(row);
            id in lists && Represents(order, lists[id := lists[id] + [row]], groups[j := groups[j] + [row]])
  {
  }

  lemma RepresentsNew(order: seq<Identity>, lists: map<Identity, Group>, groups: seq<Group>, row: InvoiceLine)
    requires Represents(order, lists, groups) && IdentityOf(row) !in lists
    ensures var id := IdentityOf(row);
            Represents(order + [id], lists[id := [row]], groups + [[row]])
  {
  }

  method GroupInvoices(invoices: seq<InvoiceLine>) returns (result: seq<Group>)
    ensures result == GroupsOf(invoices)
  {
    var rows := SortedRows(invoices);
    var order: seq<Identity> := [];
    var groups: map<Identity, Group> := map[];
    for k := 0 to |rows|
      invariant Represents(order, groups, GroupRows(rows[..k]))
    {
      var id := IdentityOf(rows[k]);
      ghost var before := GroupRows(rows[..k]);
      GroupRowsSnoc(rows, k);
      RepresentsAddRow(order, groups, before, rows[k]);
      if id in groups {
        groups := groups[id := groups[id] + [rows[k]]];
      } else {
        order, groups := order + [id], groups[id := [rows[k]]];
      }
    }
    assert rows[..|rows|] == rows;
    result := GroupValues(order, groups, GroupRows(rows));
  }

  lemma GroupRowsSnoc(rows: seq<InvoiceLine>, k: nat)
    requires k < |rows|
    ensures GroupRows(rows[..k + 1]) == AddRow(GroupRows(rows[..k]), rows[k])
    ensures WellGrouped(GroupRows(rows[..k]))
  {
    assert rows[..k + 1][..k] == rows[..k];
    GroupRowsWellGrouped(rows[..k]);
  }

  method GroupValues(order: seq<Identity>, groups: map<Identity, Group>, ghost spec: seq<Group>)
      returns (result: seq<Group>)
    requires Represents(order, groups, spec)
    ensures result == spec
  {
    result := [];
    for k := 0 to |order|
      invariant result == spec[..k]
    {
      result := result + [groups[order[k]]];
    }
  }

  // ----- targets and PO resolution

  function TargetsOf(group: Group): set<Target> {
    set row | row in group :: TargetOf(row)
  }

  /** Duplicate rows that disagree on what they bill. */
  predicate Ambiguous(group: Group) {
    |TargetsOf(group)| > 1
  }

  lemma AmbiguousMeans(group: Group)
    ensures Ambiguous(group) <==> exists row :: row in group && TargetOf(row) != TargetOf(group[0])
    ensures |group| == 1 ==> !Ambiguous(group)
  {
    var first := TargetOf(group[0]);
    assert group[0] in group && first in TargetsOf(group);
    if exists row :: row in group && TargetOf(row) != first {
      var row :| row in group && TargetOf(row) != first;
      assert TargetOf(row) in TargetsOf(group);
      assert {first, TargetOf(row)} <= TargetsOf(group);
      SubsetSize({first, TargetOf(row)}, TargetsOf(group));
    } else {
      assert TargetsOf(group) == {first};
    }
  }

  lemma {:induction false} SubsetSize<T>(a: set<T>, b: set<T>)
    requires a <= b
    ensures |a| <= |b|
  {
    if a != {} {
      var x :| x in a;
      SubsetSize(a - {x}, b - {x});
    }
  }

  /** The PO dictionary and the set of known PO numbers. */
  datatype Orders = Orders(index: map<PoKey, PoLine>, numbers: set<Code>)

  function IndexOf(orders: seq<PoLine>): map<PoKey, PoLine> {
    if orders == [] then map[]
    else IndexOf(orders[..|orders| - 1])[KeyOfPo(orders[|orders| - 1]) := orders[|orders| - 1]]
  }

  function OrdersOf(orders: seq<PoLine>): Orders {
    Orders(IndexOf(orders), set po | po in orders :: po.number)
  }

  /** Every entry is a PO line filed under its own key and number. */
  ghost predicate ValidOrders(orders: Orders) {
    forall k :: k in orders.index ==> KeyOfPo(orders.index[k]) == k && k.number in orders.numbers
  }

  lemma {:induction false} IndexMembers(orders: seq<PoLine>, k: PoKey)
    ensures k in IndexOf(orders) ==> IndexOf(orders)[k] in orders && KeyOfPo(IndexOf(orders)[k]) == k
    ensures (exists po :: po in orders && KeyOfPo(po) == k) ==> k in IndexOf(orders)
  {
    if orders != [] {
      IndexMembers(orders[..|orders| - 1], k);
      assert orders == orders[..|orders| - 1] + [orders[|orders| - 1]];
    }
  }

  lemma OrdersValid(orders: seq<PoLine>)
    ensures ValidOrders(OrdersOf(orders))
  {
    forall k | k in IndexOf(orders)
      ensures KeyOfPo(IndexOf(orders)[k]) == k && k.number in OrdersOf(orders).numbers
    {
      IndexMembers(orders, k);
    }
  }

  /** With unique keys the dictionary holds every PO line, whatever the row order. */
  lemma IndexComplete(orders: seq<PoLine>, po: PoLine)
    requires UniquePoKeys(orders)
    ensures po in orders <==> KeyOfPo(po) in IndexOf(orders) && IndexOf(orders)[KeyOfPo(po)] == po
  {
    IndexMembers(orders, KeyOfPo(po));
  }

  datatype Resolution = Resolved(po: PoLine) | Unresolved(issue: Issue)

  function Resolve(invoice: InvoiceLine, orders: Orders): Resolution {
    if invoice.poNumber !in orders.numbers then Unresolved(UnknownPo)
    else if PoKeyOf(invoice) !in orders.index then Unresolved(UnknownItem)
    else if invoice.item != orders.index[PoKeyOf(invoice)].item then Unresolved(UnknownItem)
    else Resolved(orders.index[PoKeyOf(invoice)])
  }

  /** A line resolves exactly when some PO line has its number, line and item. */
  lemma ResolveMeans(invoice: InvoiceLine, lines: seq<PoLine>, po: PoLine)
    requires UniquePoKeys(lines)
    ensures Resolve(invoice, OrdersOf(lines)) == Resolved(po) <==>
            po in lines && TargetOf(invoice) == PoTarget(po)
  {
    OrdersValid(lines);
    IndexComplete(lines, po);
  }

  // ----- price tolerance, disputes, ordered issues

  predicate PriceWithinTolerance(invoicePrice: real, poPrice: real, config: Config) {
    (if invoicePrice >= poPrice then invoicePrice - poPrice else poPrice - invoicePrice)
      <= poPrice * config.toleranceRate
  }

  const ISSUE_ORDER: seq<Issue> := [
    UnknownPo, UnknownItem, DuplicateInvoice, SupplierMismatch, CurrencyMismatch, MissingReceipt,
    QuantityExceedsPo, QuantityExceedsReceipt, PriceMismatch, ReceiptItemMismatch, OverReceived]

  const FULL_EXPOSURE_ISSUES: set<Issue> :=
    {UnknownPo, UnknownItem, DuplicateInvoice, SupplierMismatch, CurrencyMismatch}

  function Select(order: seq<Issue>, issues: set<Issue>): seq<Issue> {
    if order == [] then []
    else (if order[0] in issues then [order[0]] else []) + Select(order[1..], issues)
  }

  function OrderIssues(issues: set<Issue>): seq<Issue> {
    Select(ISSUE_ORDER, issues)
  }

  ghost predicate NoRepeats(order: seq<Issue>) {
    forall a, b :: 0 <= a < b < |order| ==> order[a] != order[b]
  }

  lemma {:induction false} SelectMembers(order: seq<Issue>, issues: set<Issue>, i: Issue)
    requires NoRepeats(order)
    ensures multiset(Select(order, issues))[i] == if i in order && i in issues then 1 else 0
  {
    if order != [] {
      SelectMembers(order[1..], issues, i);
      assert order == [order[0]] + order[1..];
    }
  }

  lemma IssueOrderComplete(i: Issue)
    ensures i in ISSUE_ORDER
  {
    var at := match i
      case UnknownPo => 0 case UnknownItem => 1 case DuplicateInvoice => 2 case SupplierMismatch => 3
      case CurrencyMismatch => 4 case MissingReceipt => 5 case QuantityExceedsPo => 6
      case QuantityExceedsReceipt => 7 case PriceMismatch => 8 case ReceiptItemMismatch => 9
      case OverReceived => 10;
    assert ISSUE_ORDER[at] == i;
  }

  lemma IssueOrderDistinct()
    ensures NoRepeats(ISSUE_ORDER)
  {
  }

  lemma OrderIssuesMember(issues: set<Issue>, i: Issue)
    ensures multiset(OrderIssues(issues))[i] == if i in issues then 1 else 0
    ensures i in OrderIssues(issues) <==> i in issues
  {
    IssueOrderDistinct();
    SelectMembers(ISSUE_ORDER, issues, i);
    IssueOrderComplete(i);
    assert i in OrderIssues(issues) <==> i in multiset(OrderIssues(issues));
  }

  /** Ordering keeps exactly the issues found, each once. */
  lemma OrderIssuesMembers(issues: set<Issue>)
    ensures forall i :: multiset(OrderIssues(issues))[i] == if i in issues then 1 else 0
    ensures forall i :: i in OrderIssues(issues) <==> i in issues
    ensures OrderIssues(issues) == [] <==> issues == {}
  {
    var ordered := OrderIssues(issues);
    forall i: Issue
      ensures multiset(ordered)[i] == if i in issues then 1 else 0
      ensures i in ordered <==> i in issues
    {
      OrderIssuesMember(issues, i);
    }
    EmptyTogether(ordered, issues);
  }

  lemma EmptyTogether(ordered: seq<Issue>, issues: set<Issue>)
    requires forall i :: i in ordered <==> i in issues
    ensures ordered == [] <==> issues == {}
  {
    if ordered != [] {
      assert ordered[0] in issues;
    }
    if issues != {} {
      var i := Pick(issues);
      assert i in ordered;
    }
  }

  /** One conditional `issues.add(...)`. */
  function With(issues: set<Issue>, found: bool, issue: Issue): set<Issue> {
    if found then issues + {issue} else issues
  }

  function StatusOf(issues: seq<Issue>): Status {
    if issues == [] then Matched else ReviewRequired
  }

  /** A quantity at a unit price. */
  function Priced(quantity: real, price: Price): (r: real)
    ensures quantity >= 0.0 ==> r >= 0.0
  {
    quantity * price
  }

  lemma PricedMonotone(less: real, more: real, price: Price)
    requires less <= more
    ensures Priced(less, price) <= Priced(more, price)
  {
    assert Priced(more, price) == Priced(less, price) + (more - less) * price;
    assert Priced(more - less, price) >= 0.0;
  }

  function LineAmount(invoice: InvoiceLine): (r: real)
    ensures r >= 0.0
  {
    Priced(invoice.quantity, invoice.price)
  }

  predicate FullExposure(issues: seq<Issue>) {
    exists i :: i in issues && i in FULL_EXPOSURE_ISSUES
  }

  /** The part of the invoiced amount beyond the accepted price of the supported quantity. */
  function Uncovered(invoice: InvoiceLine, supported: real, accepted: Price): (r: real)
    ensures r >= 0.0
  {
    Max(LineAmount(invoice) - Priced(supported, accepted), 0.0)
  }

  function DisputedAmount(
    invoice: InvoiceLine, po: PoLine, supported: real, issues: seq<Issue>, config: Config): Money
  {
    if issues == [] then RoundMoney(0.0, config)
    else if FullExposure(issues) then RoundMoney(LineAmount(invoice), config)
    else
      var accepted := if PriceMismatch in issues then po.price else invoice.price;
      RoundMoney(Uncovered(invoice, supported, accepted), config)
  }

  // ----- capacity

  function MaxQuantity(rows: seq<InvoiceLine>): (r: real)
    requires rows != []
    ensures exists i :: 0 <= i < |rows| && r == rows[i].quantity
    ensures forall i :: 0 <= i < |rows| ==> rows[i].quantity <= r
  {
    var n := |rows| - 1;
    if n == 0 then rows[0].quantity else Max(MaxQuantity(rows[..n]), rows[n].quantity)
  }

  /** What an unambiguous group takes from the capacity of a PO line. */
  function Share(group: Group, orders: Orders, key: PoKey): (r: real)
    ensures r >= 0.0
  {
    if !Ambiguous(group) && Consumes(group, orders, key) then MaxQuantity(group) else 0.0
  }

  predicate Consumes(group: Group, orders: Orders, key: PoKey) {
    PoKeyOf(group[0]) == key && key in orders.index && group[0].item == orders.index[key].item
  }

  /** Capacity of a PO line taken by the groups before the current one. */
  function Prior(before: seq<Group>, orders: Orders, key: PoKey): (r: real)
    ensures r >= 0.0
  {
    if before == [] then 0.0
    else Prior(before[..|before| - 1], orders, key) + Share(before[|before| - 1], orders, key)
  }

  /** The capacity dictionary holds what the groups walked so far consumed. */
  ghost predicate ConsumedAgrees(consumed: map<PoKey, real>, orders: Orders, before: seq<Group>) {
    forall k :: Lookup(consumed, k) == Prior(before, orders, k)
  }

  lemma ConsumedOne(
      consumed: map<PoKey, real>, orders: Orders, groups: seq<Group>, i: nat, after: map<PoKey, real>)
    requires i < |groups| && ConsumedAgrees(consumed, orders, groups[..i])
    requires forall k :: Lookup(after, k) == Lookup(consumed, k) + Share(groups[i], orders, k)
    ensures ConsumedAgrees(after, orders, groups[..i + 1])
  {
    assert groups[..i + 1][..i] == groups[..i];
  }

  method ConsumeGroupCapacity(group: Group, orders: Orders, consumed: map<PoKey, real>)
      returns (after: map<PoKey, real>)
    ensures forall k :: Lookup(after, k) ==
              Lookup(consumed, k) + if Consumes(group, orders, k) then MaxQuantity(group) else 0.0
  {
    var key := PoKeyOf(group[0]);
    if key !in orders.index || group[0].item != orders.index[key].item {
      return consumed;
    }
    after := consumed[key := Lookup(consumed, key) + MaxQuantity(group)];
  }

  // ----- summary

  datatype Outcome = Outcome(status: Status, issues: seq<Issue>)
  datatype CurrencyAmount = CurrencyAmount(currency: Code, amount: Money)
  datatype Exposure = Exposure(currency: Code, amount: Money)

  datatype Summary = Summary(
    invoices: nat, lines: nat, matched: nat, reviewRequired: nat,
    issueCounts: seq<(Issue, nat)>, disputed: seq<CurrencyAmount>)

  function StatusCount(outcomes: seq<Outcome>, status: Status): nat {
    if outcomes == [] then 0
    else StatusCount(outcomes[..|outcomes| - 1], status)
         + if outcomes[|outcomes| - 1].status == status then 1 else 0
  }

  function IssueCount(outcomes: seq<Outcome>, issue: Issue): nat {
    if outcomes == [] then 0
    else IssueCount(outcomes[..|outcomes| - 1], issue) + multiset(outcomes[|outcomes| - 1].issues)[issue]
  }

  function IssueCounts(order: seq<Issue>, outcomes: seq<Outcome>): seq<(Issue, nat)> {
    if order == [] then []
    else IssueCounts(order[..|order| - 1], outcomes)
         + var last := order[|order| - 1];
           if IssueCount(outcomes, last) != 0 then [(last, IssueCount(outcomes, last))] else []
  }

  function TotalFor(exposures: seq<Exposure>, currency: Code): nat {
    if exposures == [] then 0
    else TotalFor(exposures[..|exposures| - 1], currency)
         + if exposures[|exposures| - 1].currency == currency then exposures[|exposures| - 1].amount else 0
  }

  /** Currencies in order of first appearance, each once. */
  function CurrenciesOf(exposures: seq<Exposure>): seq<Code> {
    if exposures == [] then []
    else
      var before := CurrenciesOf(exposures[..|exposures| - 1]);
      var c := exposures[|exposures| - 1].currency;
      if c in before then before else before + [c]
  }

  function CurrencyKey(currency: Code): Key {
    [currency as real]
  }

  function Amounts(currencies: seq<Code>, exposures: seq<Exposure>, config: Config): seq<CurrencyAmount> {
    if currencies == [] then []
    else Amounts(currencies[..|currencies| - 1], exposures, config)
         + var c := currencies[|currencies| - 1];
           if TotalFor(exposures, c) == 0 then []
           else [CurrencyAmount(c, RoundMoney(AmountOf(TotalFor(exposures, c), config), config))]
  }

  function SortedCurrencies(exposures: seq<Exposure>): seq<Code> {
    SortBy(CurrenciesOf(exposures), CurrencyKey)
  }

  function DocumentsOf(invoices: seq<InvoiceLine>): set<(Code, Code)> {
    set row | row in invoices :: (row.supplier, row.number)
  }

  function SummaryOf(
    invoices: seq<InvoiceLine>, outcomes: seq<Outcome>, exposures: seq<Exposure>, config: Config): Summary
  {
    Summary(
      |DocumentsOf(invoices)|, |invoices|,
      StatusCount(outcomes, Matched), StatusCount(outcomes, ReviewRequired),
      IssueCounts(ISSUE_ORDER, outcomes),
      Amounts(SortedCurrencies(exposures), exposures, config))
  }

  method Summarize(
      invoices: seq<InvoiceLine>, outcomes: seq<Outcome>, exposures: seq<Exposure>, config: Config)
      returns (summary: Summary)
    ensures summary == SummaryOf(invoices, outcomes, exposures, config)
  {
    var issueCounts := CountIssues(outcomes);
    var matched := CountStatus(outcomes, Matched);
    var review := CountStatus(outcomes, ReviewRequired);
    var disputed := SumByCurrency(exposures, config);
    summary := Summary(|DocumentsOf(invoices)|, |invoices|, matched, review, issueCounts, disputed);
  }

  method CountStatus(outcomes: seq<Outcome>, status: Status) returns (count: nat)
    ensures count == StatusCount(outcomes, status)
  {
    count := 0;
    for k := 0 to |outcomes|
      invariant count == StatusCount(outcomes[..k], status)
    {
      assert outcomes[..k + 1][..k] == outcomes[..k];
      if outcomes[k].status == status {
        count := count + 1;
      }
    }
    assert outcomes[..|outcomes|] == outcomes;
  }

  /** The counter agrees with the rows seen so far. */
  ghost predicate Counts(counter: map<Issue, nat>, outcomes: seq<Outcome>) {
    forall i: Issue :: (if i in counter then counter[i] else 0) == IssueCount(outcomes, i)
  }

  method CountIssues(outcomes: seq<Outcome>) returns (counts: seq<(Issue, nat)>)
    ensures counts == IssueCounts(ISSUE_ORDER, outcomes)
  {
    var counter: map<Issue, nat> := map[];
    for k := 0 to |outcomes|
      invariant Counts(counter, outcomes[..k])
    {
      counter := CountRow(counter, outcomes[..k], outcomes[k]);
      assert outcomes[..k] + [outcomes[k]] == outcomes[..k + 1];
    }
    assert outcomes[..|outcomes|] == outcomes;
    counts := [];
    for k := 0 to |ISSUE_ORDER|
      invariant counts == IssueCounts(ISSUE_ORDER[..k], outcomes)
    {
      var issue := ISSUE_ORDER[k];
      assert ISSUE_ORDER[..k + 1][..k] == ISSUE_ORDER[..k];
      if issue in counter && counter[issue] != 0 {
        counts := counts + [(issue, counter[issue])];
      }
    }
    assert ISSUE_ORDER[..|ISSUE_ORDER|] == ISSUE_ORDER;
  }

  method CountRow(counter: map<Issue, nat>, ghost before: seq<Outcome>, row: Outcome)
      returns (after: map<Issue, nat>)
    requires Counts(counter, before)
    ensures Counts(after, before + [row])
  {
    after := counter;
    for j := 0 to |row.issues|
      invariant forall i: Issue :: (if i in after then after[i] else 0)
                  == IssueCount(before, i) + multiset(row.issues[..j])[i]
    {
      var issue := row.issues[j];
      assert row.issues[..j + 1] == row.issues[..j] + [issue];
      after := after[issue := 1 + if issue in after then after[issue] else 0];
    }
    assert row.issues[..|row.issues|] == row.issues;
    assert (before + [row])[..|before|] == before;
  }

  /** The totals dictionary (its keys in order, its sums) agrees with the exposures seen so far. */
  ghost predicate Totals(order: seq<Code>, totals: map<Code, nat>, exposures: seq<Exposure>) {
    && order == CurrenciesOf(exposures)
    && (forall c :: c in totals <==> c in order)
    && (forall c :: TotalFor(exposures, c) == if c in totals then totals[c] else 0)
  }

  lemma TotalsStep(order: seq<Code>, totals: map<Code, nat>, exposures: seq<Exposure>, e: Exposure)
    requires Totals(order, totals, exposures)
    ensures if e.currency in totals
            then Totals(order, totals[e.currency := totals[e.currency] + e.amount], exposures + [e])
            else Totals(order + [e.currency], totals[e.currency := e.amount], exposures + [e])
  {
    assert (exposures + [e])[..|exposures|] == exposures;
  }

  /** Sums exposures per currency; the currencies come back sorted. */
  method SumExposures(exposures: seq<Exposure>) returns (sorted: seq<Code>, totals: map<Code, nat>)
    ensures sorted == SortedCurrencies(exposures)
    ensures forall i :: 0 <= i < |sorted| ==>
      sorted[i] in totals && totals[sorted[i]] == TotalFor(exposures, sorted[i])
  {
    var order: seq<Code> := [];
    totals := map[];
    for k := 0 to |exposures|
      invariant Totals(order, totals, exposures[..k])
    {
      var e := exposures[k];
      TotalsStep(order, totals, exposures[..k], e);
      assert exposures[..k] + [e] == exposures[..k + 1];
      if e.currency in totals {
        totals := totals[e.currency := totals[e.currency] + e.amount];
      } else {
        order, totals := order + [e.currency], totals[e.currency := e.amount];
      }
    }
    assert exposures[..|exposures|] == exposures;
    sorted := SortBy(order, CurrencyKey);
    SortMembers(order, CurrencyKey);
    MembersHaveTotals(order, totals, exposures, sorted);
  }

  lemma MembersHaveTotals(order: seq<Code>, totals: map<Code, nat>, exposures: seq<Exposure>, sorted: seq<Code>)
    requires Totals(order, totals, exposures)
    requires forall c :: c in sorted ==> c in order
    ensures forall i :: 0 <= i < |sorted| ==>
      sorted[i] in totals && totals[sorted[i]] == TotalFor(exposures, sorted[i])
  {
    forall i | 0 <= i < |sorted|
      ensures sorted[i] in totals && totals[sorted[i]] == TotalFor(exposures, sorted[i])
    {
      var c := sorted[i];
      assert c in sorted;
      assert TotalFor(exposures, c) == if c in totals then totals[c] else 0;
    }
  }

  method SumByCurrency(exposures: seq<Exposure>, config: Config) returns (amounts: seq<CurrencyAmount>)
    ensures amounts == Amounts(SortedCurrencies(exposures), exposures, config)
  {
    var sorted, totals := SumExposures(exposures);
    amounts := [];
    for k := 0 to |sorted|
      invariant amounts == Amounts(sorted[..k], exposures, config)
    {
      assert sorted[..k + 1][..k] == sorted[..k];
      var total := totals[sorted[k]];
      if total != 0 {
        amounts := amounts + [CurrencyAmount(sorted[k], RoundMoney(AmountOf(total, config), config))];
      }
    }
    assert sorted[..|sorted|] == sorted;
  }
}
