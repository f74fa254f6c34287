/** The database's own checks, and why no request the service accepts is ever rejected by them. */
module Triggers {
  import opened Prelude
  import opened Ledger
  import opened LedgerInvariants

  datatype TriggerError =
    | OperationRequired | MustBePositive | MustBeNegative | ActiveItemRequired | ActiveLocationRequired
    | OpeningExists | Insufficient | BadTransfer | BadReversal | BadMovementCount
    | ItemCodeImmutable | UnitImmutable | ItemHasStock | LocationCodeImmutable | LocationHasStock

  // ----- validate_stock_movement: before each inserted movement row

  /** The row trigger accepts a movement of an operation of this kind. */
  ghost predicate MovementAllowed(db: State, kind: Option<Kind>, row: Movement) {
    && kind.Some?
    && (kind.value in {OpeningBalance, StockReceipt, AdjustmentIn} ==> row.delta > 0.0)
    && (kind.value in {StockIssue, AdjustmentOut} ==> row.delta < 0.0)
    && ItemIs(db, row.item, Active) && db.items[row.item].baseUom.Some?
    && LocationIs(db, row.location, Active)
    && (kind.value == OpeningBalance ==> !HasMovement(db.operations, At(row.item, row.location)))
    && Balance(db, row.item, row.location) + row.delta >= 0.0
  }

  method ValidateStockMovement(db: State, kind: Option<Kind>, row: Movement) returns (error: Option<TriggerError>)
    ensures error.None? <==> MovementAllowed(db, kind, row)
  {
    if kind.None? {
      return Some(OperationRequired);
    }
    if kind.value in {OpeningBalance, StockReceipt, AdjustmentIn} && row.delta <= 0.0 {
      return Some(MustBePositive);
    }
    if kind.value in {StockIssue, AdjustmentOut} && row.delta >= 0.0 {
      return Some(MustBeNegative);
    }
    if !(ItemIs(db, row.item, Active) && db.items[row.item].baseUom.Some?) {
      return Some(ActiveItemRequired);
    }
    if !LocationIs(db, row.location, Active) {
      return Some(ActiveLocationRequired);
    }
    if kind.value == OpeningBalance && HasMovement(db.operations, At(row.item, row.location)) {
      return Some(OpeningExists);
    }
    var current := Total(db.operations, At(row.item, row.location));
    if current + row.delta < 0.0 {
      return Some(Insufficient);
    }
    return None;
  }

  // ----- validate_inventory_operation: at commit, once per inserted operation

  function Abs(x: real): real {
    if x < 0.0 then -x else x
  }

  /** The deferred trigger accepts operation k of the table. */
  ghost predicate OperationAllowed(operations: seq<Operation>, k: nat)
    requires k < |operations|
  {
    var m := operations[k].movements;
    match operations[k].kind
    case Transfer =>
      && |m| == 2 && m[0].item == m[1].item && m[0].location != m[1].location
      && m[0].delta + m[1].delta == 0.0 && Abs(m[0].delta) == Abs(m[1].delta)
    case Reversal =>
      && operations[k].reverses.Some? && operations[k].reverses.value < |operations|
      && var original := operations[operations[k].reverses.value].movements;
         && m != [] && |m| == |original|
         && forall o :: o in original ==> Movement(o.item, o.location, -o.delta) in m
    case _ => |m| == 1
  }

  method ValidateInventoryOperation(operations: seq<Operation>, k: nat) returns (error: Option<TriggerError>)
    requires k < |operations|
    requires operations[k].kind == Reversal ==>
      operations[k].reverses.Some? && operations[k].reverses.value < |operations|
    ensures error.None? <==> OperationAllowed(operations, k)
  {
    var m := operations[k].movements;
    if operations[k].kind == Transfer {
      var items := set i | 0 <= i < |m| :: m[i].item;
      var locations := set i | 0 <= i < |m| :: m[i].location;
      if |m| == 2 {
        assert items == {m[0].item, m[1].item} && locations == {m[0].location, m[1].location};
        if |items| == 1 && |locations| == 2 && m[0].delta + m[1].delta == 0.0
           && Min(Abs(m[0].delta), Abs(m[1].delta)) == Max(Abs(m[0].delta), Abs(m[1].delta)) {
          PairCount(m[0].item, m[1].item);
          PairCount(m[0].location, m[1].location);
          return None;
        }
        PairCount(m[0].item, m[1].item);
        PairCount(m[0].location, m[1].location);
      }
      return Some(BadTransfer);
    }
    if operations[k].kind == Reversal {
      var original := operations[operations[k].reverses.value].movements;
      if m == [] || (exists o :: o in original && Movement(o.item, o.location, -o.delta) !in m)
         || |m| != |original| {
        return Some(BadReversal);
      }
      return None;
    }
    if |m| != 1 {
      return Some(BadMovementCount);
    }
    return None;
  }

  lemma PairCount(a: Id, b: Id)
    ensures |{a, b}| == if a == b then 1 else 2
  {
    if a == b {
      assert {a, b} == {a};
    }
  }

  // ----- protect_inventory_master: before each update of an item or a location

  /** The row with code `id` becomes one with code `code`. */
  ghost predicate ItemChangeAllowed(db: State, id: Id, before: Item, code: Id, after: Item) {
    && code == id
    && (after.baseUom != before.baseUom ==> !HasMovement(db.operations, OfItem(id)))
    && (after.status == Archived && before.status != Archived ==> Total(db.operations, OfItem(id)) == 0.0)
  }

  ghost predicate LocationChangeAllowed(db: State, id: Id, before: Location, code: Id, after: Location) {
    && code == id
    && (after.status == Archived && before.status != Archived ==> Total(db.operations, OfLocation(id)) == 0.0)
  }

  method ProtectItem(db: State, id: Id, before: Item, code: Id, after: Item) returns (error: Option<TriggerError>)
    ensures error.None? <==> ItemChangeAllowed(db, id, before, code, after)
  {
    if code != id {
      return Some(ItemCodeImmutable);
    }
    if after.baseUom != before.baseUom && HasMovement(db.operations, OfItem(id)) {
      return Some(UnitImmutable);
    }
    if after.status == Archived && before.status != Archived {
      var current := Total(db.operations, OfItem(id));
      if current != 0.0 {
        return Some(ItemHasStock);
      }
    }
    return None;
  }

  method ProtectLocation(db: State, id: Id, before: Location, code: Id, after: Location)
      returns (error: Option<TriggerError>)
    ensures error.None? <==> LocationChangeAllowed(db, id, before, code, after)
  {
    if code != id {
      return Some(LocationCodeImmutable);
    }
    if after.status == Archived && before.status != Archived {
      var current := Total(db.operations, OfLocation(id));
      if current != 0.0 {
        return Some(LocationHasStock);
      }
    }
    return None;
  }

  // ----- table constraints

  /** The unique and check constraints of the operation and movement tables. */
  ghost predicate Constraints(operations: seq<Operation>) {
    && (forall j, k :: 0 <= j < k < |operations| ==> operations[j].key != operations[k].key)
    && (forall j, k :: 0 <= j < k < |operations| && operations[j].reverses.Some? ==>
          operations[j].reverses != operations[k].reverses)
    && (forall k :: 0 <= k < |operations| ==>
          && operations[k].occurred <= operations[k].created
          && (operations[k].kind == Reversal <==> operations[k].reverses.Some?)
          && forall m :: m in operations[k].movements ==> m.delta != 0.0)
  }

  lemma SoundMeetsConstraints(s: State)
    requires Sound(s)
    ensures Constraints(s.operations)
  {
    forall k, m | 0 <= k < |s.operations| && m in s.operations[k].movements ensures m.delta != 0.0 {
      assert Proper(s.operations, k);
      if s.operations[k].kind == Reversal {
        var original := s.operations[s.operations[k].reverses.value].movements;
        var j :| 0 <= j < |original| && Negated(original)[j] == m;
      }
    }
    forall k | 0 <= k < |s.operations| ensures s.operations[k].kind == Reversal <==> s.operations[k].reverses.Some? {
      assert Proper(s.operations, k);
    }
  }

  // ----- the service refines the database checks

  /** The tables as the row trigger sees them while the operation's n-th movement is inserted. */
  function Inserting(s: State, op: Operation, n: nat): State
    requires n <= |op.movements|
  {
    s.(operations := s.operations + [op.(movements := op.movements[..n])])
  }

  /** Movements of one operation touch different positions, so earlier rows of the same
      operation do not disturb the checks of a later one. */
  lemma DistinctPositions(s: State, op: Operation, n: nat)
    requires Sound(s) && Postable(s, op) && n < |op.movements|
    ensures forall m :: m in op.movements[..n] ==> !Covers(At(op.movements[n].item, op.movements[n].location), m)
    ensures Net(op.movements, At(op.movements[n].item, op.movements[n].location)) == op.movements[n].delta
  {
    var m := op.movements[n];
    var shaped := if op.kind == Reversal then s.operations[op.reverses.value] else op;
    if op.kind == Reversal {
      assert Proper(s.operations, op.reverses.value);
      NetNegated(shaped.movements, At(m.item, m.location));
    }
    assert Shaped(shaped) && shaped.movements[n] in shaped.movements;
    NetAtMovement(shaped, shaped.movements[n]);
  }

  lemma RowAccepted(s: State, op: Operation, n: nat)
    requires Sound(s) && Postable(s, op) && n < |op.movements|
    ensures MovementAllowed(Inserting(s, op, n), Some(op.kind), op.movements[n])
  {
    var m, db := op.movements[n], Inserting(s, op, n);
    var scope := At(m.item, m.location);
    assert m in op.movements;
    DistinctPositions(s, op, n);
    NetUntouched(op.movements[..n], scope);
    TotalSnoc(s.operations, op.(movements := op.movements[..n]), scope);
    assert Balance(s, m.item, m.location) + Net(op.movements, scope) >= 0.0;
    if op.kind == OpeningBalance {
      forall k | 0 <= k < |db.operations| ensures !Moves(db.operations[k], scope) {
        if k < |s.operations| {
          assert !HasMovement(s.operations, scope);
          assert db.operations[k] == s.operations[k];
        }
      }
    }
  }

  lemma OperationAccepted(s: State, op: Operation)
    requires Sound(s) && Postable(s, op)
    ensures OperationAllowed(s.operations + [op], |s.operations|)
  {
    if op.kind == Reversal {
      var original := s.operations[op.reverses.value].movements;
      assert Proper(s.operations, op.reverses.value);
      forall o | o in original ensures Movement(o.item, o.location, -o.delta) in op.movements {
        var j :| 0 <= j < |original| && original[j] == o;
        assert op.movements[j] == Movement(o.item, o.location, -o.delta);
      }
    }
  }

  /** Every operation the service builds, reversals included, passes the movement trigger row by
      row, the deferred operation trigger and every table constraint. */
  lemma PostingPassesTriggers(s: State, p: Posting)
    requires Sound(s) && Refusal(s, p).None?
    ensures var op := OperationOf(s, p);
            && (forall n :: 0 <= n < |op.movements| ==>
                  MovementAllowed(Inserting(s, op, n), Some(op.kind), op.movements[n]))
            && OperationAllowed(ApplyPosting(s, p).0.operations, |s.operations|)
            && Constraints(ApplyPosting(s, p).0.operations)
  {
    var op := OperationOf(s, p);
    AcceptedIsPostable(s, p);
    forall n | 0 <= n < |op.movements|
      ensures MovementAllowed(Inserting(s, op, n), Some(op.kind), op.movements[n])
    {
      RowAccepted(s, op, n);
    }
    OperationAccepted(s, op);
    AppendSound(s, op);
    SoundMeetsConstraints(ApplyPosting(s, p).0);
  }

  /** Every item or location change the service saves passes the master-data trigger, and no
      request updates or deletes a ledger row. */
  lemma MasterChangePassesTriggers(s: State, r: Request)
    ensures var s' := Apply(s, r).0;
            && (forall i :: i in s.items ==> i in s'.items && ItemChangeAllowed(s, i, s.items[i], i, s'.items[i]))
            && (forall l :: l in s.locations ==>
                  l in s'.locations && LocationChangeAllowed(s, l, s.locations[l], l, s'.locations[l]))
            && s.operations <= s'.operations
  {
  }
}
