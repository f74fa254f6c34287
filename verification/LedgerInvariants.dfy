/** What every ledger reachable by serving requests satisfies. */
module LedgerInvariants {
  import opened Prelude
  import opened Ledger

  // ----- sums

  lemma TotalSnoc(operations: seq<Operation>, op: Operation, scope: Scope)
    ensures Total(operations + [op], scope) == Total(operations, scope) + Net(op.movements, scope)
  {
    assert (operations + [op])[..|operations|] == operations;
  }

  lemma {:induction false} NetNegated(movements: seq<Movement>, scope: Scope)
    ensures Net(Negated(movements), scope) == -Net(movements, scope)
  {
    if movements != [] {
      var n := |movements| - 1;
      NetNegated(movements[..n], scope);
      assert Negated(movements)[..n] == Negated(movements[..n]);
    }
  }

  lemma {:induction false} NetUntouched(movements: seq<Movement>, scope: Scope)
    requires forall m :: m in movements ==> !Covers(scope, m)
    ensures Net(movements, scope) == 0.0
  {
    if movements != [] {
      NetUntouched(movements[..|movements| - 1], scope);
      assert movements[|movements| - 1] in movements;
    }
  }

  lemma NetOne(m: Movement, scope: Scope)
    ensures Net([m], scope) == if Covers(scope, m) then m.delta else 0.0
  {
    assert [m][..0] == [];
  }

  lemma NetTwo(a: Movement, b: Movement, scope: Scope)
    ensures Net([a, b], scope)
         == (if Covers(scope, a) then a.delta else 0.0) + if Covers(scope, b) then b.delta else 0.0
  {
    assert [a, b][..1] == [a];
    NetOne(a, scope);
  }

  // ----- from a zero total to zero everywhere

  function Cell(axis: Axis, id: Id, other: Id): Scope {
    if axis == ItemAxis then At(id, other) else At(other, id)
  }

  lemma {:induction false} NetSplit(movements: seq<Movement>, axis: Axis, id: Id, others: set<Id>, x: Id)
    requires x !in others
    ensures Net(movements, Outside(axis, id, others))
         == Net(movements, Cell(axis, id, x)) + Net(movements, Outside(axis, id, others + {x}))
  {
    if movements != [] {
      NetSplit(movements[..|movements| - 1], axis, id, others, x);
    }
  }

  lemma {:induction false} TotalSplit(operations: seq<Operation>, axis: Axis, id: Id, others: set<Id>, x: Id)
    requires x !in others
    ensures Total(operations, Outside(axis, id, others))
         == Total(operations, Cell(axis, id, x)) + Total(operations, Outside(axis, id, others + {x}))
  {
    if operations != [] {
      var n := |operations| - 1;
      TotalSplit(operations[..n], axis, id, others, x);
      NetSplit(operations[n].movements, axis, id, others, x);
    }
  }

  lemma {:induction false} NetAlong(movements: seq<Movement>, axis: Axis, id: Id)
    ensures Net(movements, Along(axis, id)) == Net(movements, Outside(axis, id, {}))
  {
    if movements != [] {
      NetAlong(movements[..|movements| - 1], axis, id);
    }
  }

  lemma {:induction false} TotalAlong(operations: seq<Operation>, axis: Axis, id: Id)
    ensures Total(operations, Along(axis, id)) == Total(operations, Outside(axis, id, {}))
  {
    if operations != [] {
      TotalAlong(operations[..|operations| - 1], axis, id);
      NetAlong(operations[|operations| - 1].movements, axis, id);
    }
  }

  /** The locations (items) that occur opposite an axis. */
  function Opposites(operations: seq<Operation>, axis: Axis): set<Id> {
    if operations == [] then {}
    else
      Opposites(operations[..|operations| - 1], axis)
      + set m | m in operations[|operations| - 1].movements :: Across(m, axis)
  }

  lemma {:induction false} TotalOutsideAll(operations: seq<Operation>, axis: Axis, id: Id, others: set<Id>)
    requires Opposites(operations, axis) <= others
    ensures Total(operations, Outside(axis, id, others)) == 0.0
  {
    if operations != [] {
      var n := |operations| - 1;
      TotalOutsideAll(operations[..n], axis, id, others);
      forall m | m in operations[n].movements ensures !Covers(Outside(axis, id, others), m) {
        assert Across(m, axis) in Opposites(operations, axis);
      }
      NetUntouched(operations[n].movements, Outside(axis, id, others));
    }
  }

  ghost predicate AllNonNegative(operations: seq<Operation>) {
    forall i, l :: Total(operations, At(i, l)) >= 0.0
  }

  lemma {:induction false} OutsideNonNegative(operations: seq<Operation>, axis: Axis, id: Id, others: set<Id>)
    requires AllNonNegative(operations)
    ensures Total(operations, Outside(axis, id, others)) >= 0.0
    decreases Opposites(operations, axis) - others
  {
    if Opposites(operations, axis) <= others {
      TotalOutsideAll(operations, axis, id, others);
    } else {
      var left := Opposites(operations, axis) - others;
      var x := Beyond(Opposites(operations, axis), others);
      TotalSplit(operations, axis, id, others, x);
      assert Opposites(operations, axis) - (others + {x}) == left - {x};
      OutsideNonNegative(operations, axis, id, others + {x});
      assert Total(operations, Cell(axis, id, x)) >= 0.0 by {
        assert axis == ItemAxis ==> Total(operations, At(id, x)) >= 0.0;
        assert axis == LocationAxis ==> Total(operations, At(x, id)) >= 0.0;
      }
    }
  }

  /** If no position is negative, a zero total along an item or location leaves every one of its
      positions at zero: testing the total is enough to archive. */
  lemma ZeroTotalMeansEmpty(operations: seq<Operation>, axis: Axis, id: Id, x: Id)
    requires AllNonNegative(operations) && Total(operations, Along(axis, id)) == 0.0
    ensures Total(operations, Cell(axis, id, x)) == 0.0
  {
    TotalAlong(operations, axis, id);
    TotalSplit(operations, axis, id, {}, x);
    OutsideNonNegative(operations, axis, id, {} + {x});
    assert Total(operations, Cell(axis, id, x)) >= 0.0 by {
      assert axis == ItemAxis ==> Total(operations, At(id, x)) >= 0.0;
      assert axis == LocationAxis ==> Total(operations, At(x, id)) >= 0.0;
    }
  }

  // ----- the invariant

  /** The movements an original (non-reversal) operation may have. */
  ghost predicate Shaped(op: Operation) {
    var m := op.movements;
    match op.kind
    case Transfer =>
      |m| == 2 && m[0].item == m[1].item && m[0].location < m[1].location
      && m[0].delta == -m[1].delta && m[0].delta != 0.0
    case Reversal => false
    case OpeningBalance | StockReceipt | AdjustmentIn => |m| == 1 && m[0].delta > 0.0
    case StockIssue | AdjustmentOut => |m| == 1 && m[0].delta < 0.0
  }

  /** Operation k is an original, or it negates an earlier original that nothing else reverses. */
  ghost predicate Proper(operations: seq<Operation>, k: nat)
    requires k < |operations|
  {
    var op := operations[k];
    if op.kind == Reversal then
      && op.reverses.Some? && op.reverses.value < k
      && Shaped(operations[op.reverses.value])
      && op.movements == Negated(operations[op.reverses.value].movements)
    else op.reverses.None? && Shaped(op)
  }

  ghost predicate History(operations: seq<Operation>) {
    && (forall k :: 0 <= k < |operations| ==> Proper(operations, k))
    && (forall j, k :: 0 <= j < k < |operations| && operations[j].reverses.Some? ==>
          operations[j].reverses != operations[k].reverses)
    && (forall j, k :: 0 <= j < k < |operations| ==> operations[j].key != operations[k].key)
    && (forall k :: 0 <= k < |operations| ==> operations[k].occurred <= operations[k].created)
  }

  /** Every movement names an existing location and an item with a base unit. */
  ghost predicate Grounded(s: State) {
    forall k, m :: 0 <= k < |s.operations| && m in s.operations[k].movements ==>
      m.item in s.items && s.items[m.item].baseUom.Some? && m.location in s.locations
  }

  /** An opening balance is the first movement at its position. */
  ghost predicate OpeningsFirst(operations: seq<Operation>) {
    forall k, m :: 0 <= k < |operations| && operations[k].kind == OpeningBalance && m in operations[k].movements ==>
      !HasMovement(operations[..k], At(m.item, m.location))
  }

  /** Archived items and locations hold nothing, anywhere. */
  ghost predicate ArchivedEmpty(s: State) {
    && (forall i, l :: ItemIs(s, i, Archived) ==> Balance(s, i, l) == 0.0)
    && (forall i, l :: LocationIs(s, l, Archived) ==> Balance(s, i, l) == 0.0)
  }

  ghost predicate Sound(s: State) {
    && AllNonNegative(s.operations)
    && History(s.operations)
    && Grounded(s)
    && OpeningsFirst(s.operations)
    && ArchivedEmpty(s)
  }

  lemma EmptySound()
    ensures Sound(EMPTY)
  {
  }

  // ----- what an accepted posting looks like

  /** The service's checks on a posting, stated on the operation it is about to append. */
  ghost predicate Postable(s: State, op: Operation) {
    && (forall m :: m in op.movements ==>
          ItemIs(s, m.item, Active) && s.items[m.item].baseUom.Some? && LocationIs(s, m.location, Active))
    && (forall k :: 0 <= k < |s.operations| ==> s.operations[k].key != op.key)
    && op.occurred <= op.created
    && (forall i, l :: Balance(s, i, l) + Net(op.movements, At(i, l)) >= 0.0)
    && (op.kind == OpeningBalance ==>
         forall m :: m in op.movements ==> !HasMovement(s.operations, At(m.item, m.location)))
    && (if op.kind == Reversal
        then op.reverses.Some? && op.reverses.value < |s.operations|
             && s.operations[op.reverses.value].kind != Reversal
             && !IsReversed(s.operations, op.reverses.value)
             && op.movements == Negated(s.operations[op.reverses.value].movements)
        else op.reverses.None? && Shaped(op))
  }

  lemma MovementPostable(s: State, p: Posting)
    requires AllNonNegative(s.operations) && p.intent.MovementIntent? && Refusal(s, p).None?
    ensures Postable(s, OperationOf(s, p))
  {
    var i := p.intent;
    var m := Movement(i.item, i.location, if Outbound(i.kind) then -i.quantity else i.quantity);
    assert i.location in [i.location];
    forall item, l ensures Balance(s, item, l) + Net([m], At(item, l)) >= 0.0 {
      NetOne(m, At(item, l));
      assert Total(s.operations, At(item, l)) >= 0.0;
    }
  }

  lemma TransferPostable(s: State, p: Posting)
    requires AllNonNegative(s.operations) && p.intent.TransferIntent? && Refusal(s, p).None?
    ensures Postable(s, OperationOf(s, p))
  {
    var i := p.intent;
    assert i.source in [i.source, i.destination] && i.destination in [i.source, i.destination];
    var out, into := Movement(i.item, i.source, -i.quantity), Movement(i.item, i.destination, i.quantity);
    forall item, l ensures Balance(s, item, l) + Net(OperationOf(s, p).movements, At(item, l)) >= 0.0 {
      NetTwo(out, into, At(item, l));
      NetTwo(into, out, At(item, l));
      assert Total(s.operations, At(item, l)) >= 0.0;
    }
  }

  /** The net effect of an original at a position it touches is its movement there. */
  lemma NetAtMovement(op: Operation, m: Movement)
    requires Shaped(op) && m in op.movements
    ensures Net(op.movements, At(m.item, m.location)) == m.delta
  {
    if op.kind == Transfer {
      assert op.movements == [op.movements[0], op.movements[1]];
      NetTwo(op.movements[0], op.movements[1], At(m.item, m.location));
    } else {
      assert op.movements == [op.movements[0]];
      NetOne(op.movements[0], At(m.item, m.location));
    }
  }

  lemma ReversalPostable(s: State, p: Posting)
    requires Sound(s) && p.intent.ReversalIntent? && Refusal(s, p).None?
    ensures Postable(s, OperationOf(s, p))
  {
    var k := p.intent.operation;
    var original := s.operations[k];
    assert Proper(s.operations, k);
    var locations := LocationsOf(original.movements);
    forall m | m in Negated(original.movements)
      ensures ItemIs(s, m.item, Active) && s.items[m.item].baseUom.Some? && LocationIs(s, m.location, Active)
    {
      var j :| 0 <= j < |original.movements| && Negated(original.movements)[j] == m;
      assert original.movements[j] in original.movements;
      assert locations[j] == m.location && m.location in locations;
    }
    forall i, l ensures Balance(s, i, l) + Net(Negated(original.movements), At(i, l)) >= 0.0 {
      NetNegated(original.movements, At(i, l));
      assert Total(s.operations, At(i, l)) >= 0.0;
      if exists m :: m in original.movements && Covers(At(i, l), m) {
        var m :| m in original.movements && Covers(At(i, l), m);
        NetAtMovement(original, m);
        assert !(Balance(s, m.item, m.location) - m.delta < 0.0);
      } else {
        NetUntouched(original.movements, At(i, l));
      }
    }
  }

  /** Whatever the service posts has passed all its checks. */
  lemma AcceptedIsPostable(s: State, p: Posting)
    requires Sound(s) && Refusal(s, p).None?
    ensures Postable(s, OperationOf(s, p))
  {
    match p.intent
    case MovementIntent(_, _, _, _, _, _, _, _) => MovementPostable(s, p);
    case TransferIntent(_, _, _, _, _, _, _, _) => TransferPostable(s, p);
    case ReversalIntent(_, _) => ReversalPostable(s, p);
  }

  // ----- every request keeps the invariant

  lemma AppendHistory(s: State, op: Operation)
    requires Sound(s) && Postable(s, op)
    ensures History(s.operations + [op])
  {
    var all := s.operations + [op];
    forall k | 0 <= k < |all| ensures Proper(all, k) {
      if k < |s.operations| {
        assert Proper(s.operations, k);
      } else if op.kind == Reversal {
        assert Proper(s.operations, op.reverses.value);
      }
    }
    forall j, k | 0 <= j < k < |all| && all[j].reverses.Some? ensures all[j].reverses != all[k].reverses {
      if k == |s.operations| && op.reverses.Some? {
        assert !IsReversed(s.operations, op.reverses.value);
      }
    }
  }

  lemma AppendOpenings(s: State, op: Operation)
    requires OpeningsFirst(s.operations) && Postable(s, op)
    ensures OpeningsFirst(s.operations + [op])
  {
    var all := s.operations + [op];
    forall k, m | 0 <= k < |all| && all[k].kind == OpeningBalance && m in all[k].movements
      ensures !HasMovement(all[..k], At(m.item, m.location))
    {
      assert all[..k] == s.operations[..k];
      if k == |s.operations| {
        assert s.operations[..k] == s.operations;
      }
    }
  }

  lemma AppendBalance(s: State, op: Operation, i: Id, l: Id)
    requires Postable(s, op)
    ensures Balance(s.(operations := s.operations + [op]), i, l) >= 0.0
    ensures ItemIs(s, i, Archived) || LocationIs(s, l, Archived) ==>
      Balance(s.(operations := s.operations + [op]), i, l) == Balance(s, i, l)
  {
    TotalSnoc(s.operations, op, At(i, l));
    if ItemIs(s, i, Archived) || LocationIs(s, l, Archived) {
      NetUntouched(op.movements, At(i, l));
    }
  }

  lemma AppendSound(s: State, op: Operation)
    requires Sound(s) && Postable(s, op)
    ensures Sound(s.(operations := s.operations + [op]))
  {
    var s' := s.(operations := s.operations + [op]);
    AppendHistory(s, op);
    AppendOpenings(s, op);
    forall i, l
      ensures Balance(s', i, l) >= 0.0
      ensures ItemIs(s, i, Archived) || LocationIs(s, l, Archived) ==> Balance(s', i, l) == Balance(s, i, l)
    {
      AppendBalance(s, op, i, l);
    }
  }

  lemma ItemSaved(s: State, id: Id, item: Item)
    requires Sound(s)
    requires item.status == Archived && !ItemIs(s, id, Archived) ==> Total(s.operations, OfItem(id)) == 0.0
    requires HasMovement(s.operations, OfItem(id)) ==> id in s.items && item.baseUom == s.items[id].baseUom
    ensures Sound(s.(items := s.items[id := item]))
  {
    var s' := s.(items := s.items[id := item]);
    forall k, m | 0 <= k < |s.operations| && m in s.operations[k].movements
      ensures m.item in s'.items && s'.items[m.item].baseUom.Some?
    {
      if m.item == id {
        assert Covers(OfItem(id), m) && Moves(s.operations[k], OfItem(id));
      }
    }
    forall i, l | ItemIs(s', i, Archived) ensures Balance(s', i, l) == 0.0 {
      if i == id && !ItemIs(s, id, Archived) {
        ZeroTotalMeansEmpty(s.operations, ItemAxis, id, l);
      } else {
        assert Balance(s, i, l) == 0.0;
      }
    }
    forall i, l | LocationIs(s', l, Archived) ensures Balance(s', i, l) == 0.0 {
      assert Balance(s, i, l) == 0.0;
    }
  }

  lemma LocationSaved(s: State, id: Id, location: Location)
    requires Sound(s)
    requires location.status == Archived && !LocationIs(s, id, Archived) ==> Total(s.operations, OfLocation(id)) == 0.0
    ensures Sound(s.(locations := s.locations[id := location]))
  {
    var s' := s.(locations := s.locations[id := location]);
    forall i, l | LocationIs(s', l, Archived) ensures Balance(s', i, l) == 0.0 {
      if l == id && !LocationIs(s, id, Archived) {
        ZeroTotalMeansEmpty(s.operations, LocationAxis, id, i);
      } else {
        assert Balance(s, i, l) == 0.0;
      }
    }
    forall i, l | ItemIs(s', i, Archived) ensures Balance(s', i, l) == 0.0 {
      assert Balance(s, i, l) == 0.0;
    }
  }

  lemma NewItemHasNoHistory(s: State, id: Id)
    requires Grounded(s) && id !in s.items
    ensures !HasMovement(s.operations, OfItem(id))
  {
    forall k, m | 0 <= k < |s.operations| && m in s.operations[k].movements ensures !Covers(OfItem(id), m) {
    }
  }

  /** Every request keeps the ledger sound. */
  lemma ApplySound(s: State, r: Request)
    requires Sound(s)
    ensures Sound(Apply(s, r).0)
  {
    match r
    case CreateItem(id, description, uom) =>
      if id !in s.items {
        NewItemHasNoHistory(s, id);
        ItemSaved(s, id, Item(description, uom, Active, 1));
      }
    case UpdateItem(id, expected, description, uom) =>
      if Apply(s, r).1 == Saved {
        ItemSaved(s, id, Apply(s, r).0.items[id]);
      }
    case SetItemStatus(id, expected, status) =>
      if Apply(s, r).1 == Saved {
        ItemSaved(s, id, Apply(s, r).0.items[id]);
      }
    case CreateLocation(id, name) =>
      if id !in s.locations {
        LocationSaved(s, id, Location(name, Active, 1));
      }
    case UpdateLocation(id, expected, name) =>
      if Apply(s, r).1 == Saved {
        LocationSaved(s, id, Apply(s, r).0.locations[id]);
      }
    case SetLocationStatus(id, expected, status) =>
      if Apply(s, r).1 == Saved {
        LocationSaved(s, id, Apply(s, r).0.locations[id]);
      }
    case Post(p) =>
      if Refusal(s, p).None? {
        AcceptedIsPostable(s, p);
        AppendSound(s, OperationOf(s, p));
      }
  }

  /** Every ledger reached by serving requests from the empty one is sound: no position is ever
      negative, and archived items and locations hold nothing anywhere. */
  lemma {:induction false} RunSound(requests: seq<Request>)
    ensures Sound(Run(EMPTY, requests))
  {
    if requests == [] {
      EmptySound();
    } else {
      RunSound(requests[..|requests| - 1]);
      ApplySound(Run(EMPTY, requests[..|requests| - 1]), requests[|requests| - 1]);
    }
  }
}
