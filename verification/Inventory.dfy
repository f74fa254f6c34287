/** The inventory service: each method checks the stored rows in the service's order, then
    changes them, and does exactly what the ledger's transition function says. */
module Inventory {
  import opened Prelude
  import opened Ledger

  class Service {
    var items: map<Id, Item>
    var locations: map<Id, Location>
    var operations: seq<Operation>

    function Ledger(): State
      reads this
    {
      State(items, locations, operations)
    }

    constructor ()
      ensures Ledger() == EMPTY
    {
      items, locations, operations := map[], map[], [];
    }

    method CreateItem(id: Id, description: Id, baseUom: Option<Id>) returns (outcome: Outcome)
      modifies this
      ensures (Ledger(), outcome) == Apply(old(Ledger()), Request.CreateItem(id, description, baseUom))
    {
      if id in items {
        return Rejected(DuplicateRecord);
      }
      items := items[id := Item(description, baseUom, Active, 1)];
      return Saved;
    }

    method UpdateItem(id: Id, expected: nat, description: Option<Id>, baseUom: Option<Option<Id>>)
        returns (outcome: Outcome)
      modifies this
      ensures (Ledger(), outcome) == Apply(old(Ledger()), Request.UpdateItem(id, expected, description, baseUom))
    {
      if id !in items {
        return Rejected(NotFound);
      }
      var record := items[id];
      if record.version != expected {
        return Rejected(VersionConflict);
      }
      if baseUom.Some? && record.baseUom != baseUom.value && HasMovement(operations, OfItem(id)) {
        return Rejected(BaseUomLocked);
      }
      if description.Some? {
        record := record.(description := description.value);
      }
      if baseUom.Some? {
        record := record.(baseUom := baseUom.value);
      }
      record := record.(version := record.version + 1);
      items := items[id := record];
      return Saved;
    }

    method SetItemStatus(id: Id, expected: nat, status: RecordStatus) returns (outcome: Outcome)
      modifies this
      ensures (Ledger(), outcome) == Apply(old(Ledger()), Request.SetItemStatus(id, expected, status))
    {
      if id !in items {
        return Rejected(NotFound);
      }
      var record := items[id];
      if record.version != expected {
        return Rejected(VersionConflict);
      }
      if status == Archived && Total(operations, OfItem(id)) != 0.0 {
        return Rejected(StockRemaining);
      }
      record := record.(status := status);
      record := record.(version := record.version + 1);
      items := items[id := record];
      return Saved;
    }

    method CreateLocation(id: Id, name: Id) returns (outcome: Outcome)
      modifies this
      ensures (Ledger(), outcome) == Apply(old(Ledger()), Request.CreateLocation(id, name))
    {
      if id in locations {
        return Rejected(DuplicateRecord);
      }
      locations := locations[id := Location(name, Active, 1)];
      return Saved;
    }

    method UpdateLocation(id: Id, expected: nat, name: Id) returns (outcome: Outcome)
      modifies this
      ensures (Ledger(), outcome) == Apply(old(Ledger()), Request.UpdateLocation(id, expected, name))
    {
      if id !in locations {
        return Rejected(NotFound);
      }
      var record := locations[id];
      if record.version != expected {
        return Rejected(VersionConflict);
      }
      record := record.(name := name);
      record := record.(version := record.version + 1);
      locations := locations[id := record];
      return Saved;
    }

    method SetLocationStatus(id: Id, expected: nat, status: RecordStatus) returns (outcome: Outcome)
      modifies this
      ensures (Ledger(), outcome) == Apply(old(Ledger()), Request.SetLocationStatus(id, expected, status))
    {
      if id !in locations {
        return Rejected(NotFound);
      }
      var record := locations[id];
      if record.version != expected {
        return Rejected(VersionConflict);
      }
      if status == Archived && Total(operations, OfLocation(id)) != 0.0 {
        return Rejected(StockRemaining);
      }
      record := record.(status := status);
      record := record.(version := record.version + 1);
      locations := locations[id := record];
      return Saved;
    }

    /** The lookup under the advisory lock: an answer that ends the request, or None. */
    method Idempotency(p: Posting) returns (outcome: Option<Outcome>)
      ensures outcome == Replay(Ledger(), p)
    {
      var k := FindKey(operations, p.key);
      if k == |operations| {
        return None;
      }
      var existing := operations[k];
      if existing.actor != p.actor || existing.intent != p.intent {
        return Some(Rejected(IdempotencyConflict));
      }
      return Some(Posted(k, false));
    }

    method LockedLocations(ids: seq<Id>) returns (error: Option<Error>)
      ensures error == LocationRefusal(Ledger(), ids)
    {
      var missing, inactive := false, false;
      for n := 0 to |ids|
        invariant missing ==> exists l :: l in ids && l !in locations
        invariant inactive ==> exists l :: l in ids && !LocationIs(Ledger(), l, Active)
        invariant !missing ==> forall j :: 0 <= j < n ==> ids[j] in locations
        invariant !inactive ==> forall j :: 0 <= j < n ==> LocationIs(Ledger(), ids[j], Active)
      {
        assert ids[n] in ids;
        if ids[n] !in locations {
          missing := true;
        }
        if !LocationIs(Ledger(), ids[n], Active) {
          inactive := true;
        }
      }
      return if missing then Some(NotFound) else if inactive then Some(InactiveLocation) else None;
    }

    /** The first of the ids that differs from the given one. */
    method FirstOther(ids: seq<Id>, id: Id) returns (other: Id)
      requires exists j :: 0 <= j < |ids| && ids[j] != id
      ensures other in ids && other != id
    {
      for n := 0 to |ids|
        invariant forall j :: 0 <= j < n ==> ids[j] == id
      {
        if ids[n] != id {
          return ids[n];
        }
      }
      assert false;
    }

    method Append(p: Posting, movements: seq<Movement>, reverses: Option<nat>) returns (outcome: Outcome)
      modifies this`operations
      ensures operations == old(operations)
              + [Operation(KindOf(p.intent), p.actor, OccurredAt(p), p.now, p.key, p.intent, reverses, movements)]
      ensures outcome == Posted(old(|operations|), true)
    {
      outcome := Posted(|operations|, true);
      operations := operations
        + [Operation(KindOf(p.intent), p.actor, OccurredAt(p), p.now, p.key, p.intent, reverses, movements)];
    }

    method PostMovement(p: Posting) returns (outcome: Outcome)
      requires p.intent.MovementIntent?
      modifies this
      ensures (Ledger(), outcome) == Apply(old(Ledger()), Request.Post(p))
    {
      if p.intent.kind !in {OpeningBalance, StockReceipt, StockIssue, AdjustmentIn, AdjustmentOut} {
        assert p.intent.kind.Transfer? || p.intent.kind.Reversal?;
        return Rejected(InvalidOperation);
      }
      var i := p.intent;
      outcome := PostStock(p, i.item, [i.location], i.quantity, i.location);
    }

    method TransferStock(p: Posting) returns (outcome: Outcome)
      requires p.intent.TransferIntent?
      modifies this
      ensures (Ledger(), outcome) == Apply(old(Ledger()), Request.Post(p))
    {
      var i := p.intent;
      if i.source == i.destination {
        return Rejected(SameLocation);
      }
      outcome := PostStock(p, i.item, [i.source, i.destination], i.quantity, i.source);
    }

    /** The shared posting path of movements and transfers; `outLocation` is the location an
        outbound posting draws from. */
    method PostStock(p: Posting, item: Id, ids: seq<Id>, quantity: real, outLocation: Id) returns (outcome: Outcome)
      requires match p.intent
        case MovementIntent(kind, i, l, q, _, _, _, _) =>
          kind !in {Transfer, Reversal} && (item, ids, quantity, outLocation) == (i, [l], q, l)
        case TransferIntent(i, source, destination, q, _, _, _, _) =>
          source != destination && (item, ids, quantity, outLocation) == (i, [source, destination], q, source)
        case ReversalIntent(_, _) => false
      modifies this
      ensures (Ledger(), outcome) == Apply(old(Ledger()), Request.Post(p))
    {
      if quantity <= 0.0 {
        return Rejected(InvalidQuantity);
      }
      var replay := Idempotency(p);
      if replay.Some? {
        return replay.value;
      }
      if item !in items {
        return Rejected(NotFound);
      }
      if items[item].status != Active {
        return Rejected(InactiveItem);
      }
      if items[item].baseUom.None? {
        return Rejected(BaseUomRequired);
      }
      var error := LockedLocations(ids);
      if error.Some? {
        return Rejected(error.value);
      }
      if OccurredAt(p) > p.now {
        return Rejected(FutureOccurredAt);
      }
      var kind := KindOf(p.intent);
      if kind == OpeningBalance && HasMovement(operations, At(item, ids[0])) {
        return Rejected(OpeningBalanceExists);
      }
      var outbound := Outbound(kind);
      if outbound && Total(operations, At(item, outLocation)) < quantity {
        return Rejected(InsufficientStock);
      }
      var movements;
      if kind == Transfer {
        var source := outLocation;
        assert ids[1] != source;
        var destination := FirstOther(ids, source);
        if source < destination {
          movements := [Movement(item, source, -quantity), Movement(item, destination, quantity)];
        } else {
          movements := [Movement(item, destination, quantity), Movement(item, source, -quantity)];
        }
      } else {
        movements := [Movement(item, ids[0], if outbound then -quantity else quantity)];
      }
      outcome := Append(p, movements, None);
    }

    method Reverse(p: Posting) returns (outcome: Outcome)
      requires p.intent.ReversalIntent?
      modifies this
      ensures (Ledger(), outcome) == Apply(old(Ledger()), Request.Post(p))
    {
      var replay := Idempotency(p);
      if replay.Some? {
        return replay.value;
      }
      var k := p.intent.operation;
      if k >= |operations| {
        return Rejected(NotFound);
      }
      if operations[k].kind == Reversal {
        return Rejected(ReversalNotReversible);
      }
      var movements := operations[k].movements;
      if exists m :: m in movements && !ItemIs(Ledger(), m.item, Active) {
        return Rejected(InactiveItem);
      }
      var error := LockedLocations(LocationsOf(movements));
      if error.Some? {
        return Rejected(error.value);
      }
      if IsReversed(operations, k) {
        return Rejected(AlreadyReversed);
      }
      var short := AnyShort(movements);
      if short {
        return Rejected(InsufficientStock);
      }
      var inverse := Negate(movements);
      outcome := Append(p, inverse, Some(k));
    }

    method AnyShort(movements: seq<Movement>) returns (short: bool)
      ensures short == Uncovered(Ledger(), movements)
    {
      for n := 0 to |movements|
        invariant !Uncovered(Ledger(), movements[..n])
      {
        assert movements[..n + 1] == movements[..n] + [movements[n]];
        var m := movements[n];
        if Total(operations, At(m.item, m.location)) - m.delta < 0.0 {
          assert m in movements && Balance(Ledger(), m.item, m.location) - m.delta < 0.0;
          return true;
        }
      }
      assert movements[..|movements|] == movements;
      return false;
    }

    method Negate(movements: seq<Movement>) returns (inverse: seq<Movement>)
      ensures inverse == Negated(movements)
    {
      inverse := [];
      for n := 0 to |movements|
        invariant inverse == Negated(movements)[..n]
      {
        inverse := inverse + [Movement(movements[n].item, movements[n].location, -movements[n].delta)];
      }
    }
  }
}
