/** Cumulative allocation of one PO line's capacity telescopes to a closed form. */
module Allocation {
  import opened Prelude
  import opened Domain
  import opened InvoiceHelpers
  import opened ThreeWay

  /** An unambiguous group billing the PO line with the given key. */
  predicate Takes(group: Group, orders: Orders, key: PoKey) {
    !Ambiguous(group) && Consumes(group, orders, key)
  }

  /** The largest supported quantity among some result rows. */
  function LargestSupported(rows: seq<ThreeWayResult>): (r: real)
    requires rows != []
    ensures exists j :: 0 <= j < |rows| && r == rows[j].supported.GetOr(0.0)
    ensures forall j :: 0 <= j < |rows| ==> rows[j].supported.GetOr(0.0) <= r
  {
    var n := |rows| - 1;
    if n == 0 then rows[0].supported.GetOr(0.0)
    else Max(LargestSupported(rows[..n]), rows[n].supported.GetOr(0.0))
  }

  /** Sum over the groups billing a PO line of the largest supported quantity in the group. */
  function Allocated(groups: seq<Group>, rows: seq<seq<ThreeWayResult>>, orders: Orders, key: PoKey): real
    requires |rows| == |groups| && forall i :: 0 <= i < |rows| ==> |rows[i]| == |groups[i]|
  {
    if groups == [] then 0.0
    else
      var n := |groups| - 1;
      Allocated(groups[..n], rows[..n], orders, key)
      + if Takes(groups[n], orders, key) then LargestSupported(rows[n]) else 0.0
  }

  /** What a PO line can support: the smaller of its ordered and received quantities. */
  function Capacity(orders: Orders, receipts: seq<Receipt>, key: PoKey): (r: real)
    requires key in orders.index
    ensures r >= 0.0
  {
    Min(orders.index[key].ordered, ReceivedFor(receipts, orders.index[key]).GetOr(0.0))
  }

  /** Every row of a group billing a PO line resolves to that line. */
  lemma TakesResolves(group: Group, orders: Orders, key: PoKey, j: nat)
    requires ValidOrders(orders) && Takes(group, orders, key) && j < |group|
    ensures Resolve(group[j], orders) == Resolved(orders.index[key]) && PoKeyOf(group[j]) == key
  {
    AmbiguousMeans(group);
    assert TargetOf(group[j]) == TargetOf(group[0]);
  }

  /** The share of one invoice line in what its group may take. */
  lemma {:induction false} RowSupport(
      group: Group, orders: Orders, receipts: seq<Receipt>, before: seq<Group>, config: Config, key: PoKey, j: nat)
    requires ValidOrders(orders) && Takes(group, orders, key) && j < |group|
    ensures GroupResults(group, orders, receipts, before, config)[j].supported
         == Some(Min(group[j].quantity, Max(Capacity(orders, receipts, key) - Prior(before, orders, key), 0.0)))
  {
    TakesResolves(group, orders, key, j);
    var po, prior := orders.index[key], Prior(before, orders, key);
    SupportIsRemainder(group[j].quantity, po.ordered, ReceivedFor(receipts, po), prior);
  }

  lemma SupportIsRemainder(invoiced: Quantity, ordered: Quantity, received: Option<real>, prior: real)
    requires prior >= 0.0 && (received.Some? ==> received.value >= 0.0)
    ensures SupportedQuantity(invoiced, ordered, received, prior, true)
         == Min(invoiced, Max(Min(ordered, received.GetOr(0.0)) - prior, 0.0))
  {
  }

  lemma RowsSupport(
      group: Group, orders: Orders, receipts: seq<Receipt>, before: seq<Group>, config: Config, key: PoKey,
      rows: seq<ThreeWayResult>, left: real)
    requires ValidOrders(orders) && Takes(group, orders, key)
    requires rows == GroupResults(group, orders, receipts, before, config)
    requires left == Max(Capacity(orders, receipts, key) - Prior(before, orders, key), 0.0)
    ensures SupportsMin(group, rows, left)
  {
    forall j | 0 <= j < |group| ensures rows[j].supported == Some(Min(group[j].quantity, left)) {
      RowSupport(group, orders, receipts, before, config, key, j);
    }
  }

  /** One group takes what is left of the capacity, up to its largest quantity. */
  lemma GroupTakes(
      group: Group, orders: Orders, receipts: seq<Receipt>, before: seq<Group>, config: Config, key: PoKey)
    requires ValidOrders(orders) && Takes(group, orders, key)
    ensures LargestSupported(GroupResults(group, orders, receipts, before, config))
         == Min(MaxQuantity(group), Max(Capacity(orders, receipts, key) - Prior(before, orders, key), 0.0))
  {
    var rows: seq<ThreeWayResult> := GroupResults(group, orders, receipts, before, config);
    var left := Max(Capacity(orders, receipts, key) - Prior(before, orders, key), 0.0);
    RowsSupport(group, orders, receipts, before, config, key, rows, left);
    LargestOfMins(group, rows, left);
  }

  ghost predicate SupportsMin(group: Group, rows: seq<ThreeWayResult>, left: real) {
    |rows| == |group| && forall j :: 0 <= j < |rows| ==> rows[j].supported == Some(Min(group[j].quantity, left))
  }

  lemma LargestOfMins(group: Group, rows: seq<ThreeWayResult>, left: real)
    requires SupportsMin(group, rows, left)
    ensures LargestSupported(rows) == Min(MaxQuantity(group), left)
  {
    var m :| 0 <= m < |group| && group[m].quantity == MaxQuantity(group);
    assert rows[m].supported.GetOr(0.0) == Min(group[m].quantity, left);
  }

  lemma RowsPrefix(groups: seq<Group>, orders: Orders, receipts: seq<Receipt>, config: Config, n: nat)
    requires n <= |groups|
    ensures RowsOf(groups, orders, receipts, config)[..n] == RowsOf(groups[..n], orders, receipts, config)
  {
    forall i | 0 <= i < n
      ensures RowsOf(groups, orders, receipts, config)[i] == RowsOf(groups[..n], orders, receipts, config)[i]
    {
      assert groups[..n][..i] == groups[..i];
    }
  }

  /** The supported quantities telescope: together the groups are granted exactly the smaller
      of what they bill and what the PO line can support. */
  lemma {:induction false} AllocationTelescopes(
      groups: seq<Group>, orders: Orders, receipts: seq<Receipt>, config: Config, key: PoKey)
    requires ValidOrders(orders) && key in orders.index
    ensures Allocated(groups, RowsOf(groups, orders, receipts, config), orders, key)
         == Min(Prior(groups, orders, key), Capacity(orders, receipts, key))
  {
    if groups != [] {
      var n := |groups| - 1;
      AllocationTelescopes(groups[..n], orders, receipts, config, key);
      RowsPrefix(groups, orders, receipts, config, n);
      if Takes(groups[n], orders, key) {
        GroupTakes(groups[n], orders, receipts, groups[..n], config, key);
      }
    }
  }

  // ----- which lines are told that capacity ran out

  /** Some row of a group billing the PO line carries the issue. */
  ghost predicate Flagged(
    groups: seq<Group>, rows: seq<seq<ThreeWayResult>>, orders: Orders, key: PoKey, issue: Issue)
    requires |rows| == |groups| && forall i :: 0 <= i < |rows| ==> |rows[i]| == |groups[i]|
  {
    exists i, j :: 0 <= i < |groups| && 0 <= j < |groups[i]| && Takes(groups[i], orders, key)
      && issue in rows[i][j].issues
  }

  /** Some row of a group billing the PO line overshoots the limit. */
  ghost predicate Overshoots(groups: seq<Group>, orders: Orders, key: PoKey, limit: real) {
    exists i, j :: 0 <= i < |groups| && 0 <= j < |groups[i]| && Takes(groups[i], orders, key)
      && Prior(groups[..i], orders, key) + groups[i][j].quantity > limit
  }

  lemma {:induction false} PriorMonotone(groups: seq<Group>, orders: Orders, key: PoKey, i: nat)
    requires i <= |groups|
    ensures Prior(groups[..i], orders, key) <= Prior(groups, orders, key)
  {
    if i < |groups| {
      PriorMonotone(groups[..|groups| - 1], orders, key, i);
      assert groups[..|groups| - 1][..i] == groups[..i];
    } else {
      assert groups[..i] == groups;
    }
  }

  lemma {:induction false} OvershootWitness(groups: seq<Group>, orders: Orders, key: PoKey, limit: real)
      returns (i: nat, j: nat)
    requires 0.0 <= limit < Prior(groups, orders, key)
    ensures i < |groups| && j < |groups[i]| && Takes(groups[i], orders, key)
    ensures Prior(groups[..i], orders, key) + groups[i][j].quantity > limit
  {
    var n := |groups| - 1;
    if Prior(groups[..n], orders, key) > limit {
      i, j := OvershootWitness(groups[..n], orders, key, limit);
      assert groups[..n][..i] == groups[..i];
    } else {
      i := n;
      j :| 0 <= j < |groups[n]| && groups[n][j].quantity == MaxQuantity(groups[n]);
    }
  }

  lemma {:induction false} OvershootsIff(groups: seq<Group>, orders: Orders, key: PoKey, limit: real)
    requires limit >= 0.0
    ensures Overshoots(groups, orders, key, limit) <==> Prior(groups, orders, key) > limit
  {
    if Overshoots(groups, orders, key, limit) {
      var i, j :| 0 <= i < |groups| && 0 <= j < |groups[i]| && Takes(groups[i], orders, key)
        && Prior(groups[..i], orders, key) + groups[i][j].quantity > limit;
      assert groups[..i + 1][..i] == groups[..i];
      PriorMonotone(groups, orders, key, i + 1);
    }
    if Prior(groups, orders, key) > limit {
      var i, j := OvershootWitness(groups, orders, key, limit);
    }
  }

  lemma RowFlags(
      group: Group, orders: Orders, receipts: seq<Receipt>, before: seq<Group>, config: Config, key: PoKey, j: nat)
    requires ValidOrders(orders) && Takes(group, orders, key) && j < |group|
    ensures var row := GroupResults(group, orders, receipts, before, config)[j];
            var reach := Prior(before, orders, key) + group[j].quantity;
            var received := ReceivedFor(receipts, orders.index[key]);
            && (QuantityExceedsPo in row.issues <==> reach > orders.index[key].ordered)
            && (QuantityExceedsReceipt in row.issues <==> received.Some? && reach > received.value)
            && (MissingReceipt in row.issues <==> received.None?)
  {
    TakesResolves(group, orders, key, j);
    var po, prior := orders.index[key], Prior(before, orders, key);
    var found := LineIssues(group[j], po, ReceivedFor(receipts, po), prior, |group| > 1, config);
    LineIssuesMeaning(group[j], po, ReceivedFor(receipts, po), prior, |group| > 1, config);
    OrderIssuesMembers(found);
    assert GroupResults(group, orders, receipts, before, config)[j].issues == OrderIssues(found);
  }

  /** A line is flagged for exceeding the PO exactly when the groups together bill more than
      was ordered, and for exceeding receipts exactly when they bill more than was received. */
  lemma {:induction false} OverrunFlaggedExactly(
      groups: seq<Group>, orders: Orders, receipts: seq<Receipt>, config: Config, key: PoKey)
    requires ValidOrders(orders) && key in orders.index
    ensures var rows := RowsOf(groups, orders, receipts, config);
            var received := ReceivedFor(receipts, orders.index[key]);
            var billed := Prior(groups, orders, key);
            && (Flagged(groups, rows, orders, key, QuantityExceedsPo) <==> billed > orders.index[key].ordered)
            && (Flagged(groups, rows, orders, key, QuantityExceedsReceipt) <==>
                  received.Some? && billed > received.value)
  {
    var rows: seq<seq<ThreeWayResult>> := RowsOf(groups, orders, receipts, config);
    var received := ReceivedFor(receipts, orders.index[key]);
    OvershootsIff(groups, orders, key, orders.index[key].ordered);
    if received.Some? {
      OvershootsIff(groups, orders, key, received.value);
    }
    forall i, j | 0 <= i < |groups| && 0 <= j < |groups[i]| && Takes(groups[i], orders, key)
      ensures var reach := Prior(groups[..i], orders, key) + groups[i][j].quantity;
              && (QuantityExceedsPo in rows[i][j].issues <==> reach > orders.index[key].ordered)
              && (QuantityExceedsReceipt in rows[i][j].issues <==> received.Some? && reach > received.value)
    {
      RowFlags(groups[i], orders, receipts, groups[..i], config, key, j);
    }
  }

  // ----- the report on a set of input files

  /** For every PO line of the input: the report's rows, group by group, grant it exactly the
      smaller of what the invoices bill, what was ordered and what was received (nothing when
      nothing was received), and some row is flagged for exceeding the PO if and only if the
      invoices together bill more than was ordered. */
  lemma ReportAllocates(
      lines: seq<PoLine>, receipts: seq<Receipt>, invoices: seq<InvoiceLine>, config: Config, po: PoLine)
    requires UniquePoKeys(lines) && po in lines
    ensures var groups, orders, key := GroupsOf(invoices), OrdersOf(lines), KeyOfPo(po);
            var rows := RowsOf(groups, orders, receipts, config);
            var billed := Prior(groups, orders, key);
            && Report(lines, receipts, invoices, config).results == Flatten(rows)
            && Allocated(groups, rows, orders, key)
               == Min(billed, Min(po.ordered, ReceivedFor(receipts, po).GetOr(0.0)))
            && (Flagged(groups, rows, orders, key, QuantityExceedsPo) <==> billed > po.ordered)
  {
    var groups, orders, key := GroupsOf(invoices), OrdersOf(lines), KeyOfPo(po);
    OrdersValid(lines);
    IndexComplete(lines, po);
    AllocationTelescopes(groups, orders, receipts, config, key);
    OverrunFlaggedExactly(groups, orders, receipts, config, key);
  }
}
