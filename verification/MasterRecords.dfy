/** Versioned edits of items and locations. */
module MasterRecords {
  import opened Prelude
  import opened Ledger
  import opened LedgerInvariants

  /** Some movement of the item was ever posted. */
  ghost predicate WasMoved(s: State, item: Id) {
    exists k, m :: 0 <= k < |s.operations| && m in s.operations[k].movements && m.item == item
  }

  lemma WasMovedMeans(s: State, item: Id)
    ensures WasMoved(s, item) <==> HasMovement(s.operations, OfItem(item))
  {
    if WasMoved(s, item) {
      var k, m :| 0 <= k < |s.operations| && m in s.operations[k].movements && m.item == item;
      assert Covers(OfItem(item), m);
      assert Moves(s.operations[k], OfItem(item));
    }
    if HasMovement(s.operations, OfItem(item)) {
      var k :| 0 <= k < |s.operations| && Moves(s.operations[k], OfItem(item));
      var m :| m in s.operations[k].movements && Covers(OfItem(item), m);
      assert m.item == item;
    }
  }

  /** Only this item changed, by one version. */
  ghost predicate ItemSavedAs(s: State, after: State, id: Id) {
    && id in s.items && after.items.Keys == s.items.Keys
    && after.items[id].version == s.items[id].version + 1
    && (forall other :: other in s.items && other != id ==> after.items[other] == s.items[other])
    && after == s.(items := after.items)
  }

  ghost predicate LocationSavedAs(s: State, after: State, id: Id) {
    && id in s.locations && after.locations.Keys == s.locations.Keys
    && after.locations[id].version == s.locations[id].version + 1
    && (forall other :: other in s.locations && other != id ==> after.locations[other] == s.locations[other])
    && after == s.(locations := after.locations)
  }

  /** An item is changed exactly when the version is the expected one and its unit is not changed
      after a movement; what is not named stays. */
  lemma ItemUpdateExactly(s: State, id: Id, expected: nat, description: Option<Id>, uom: Option<Option<Id>>)
    ensures var (after, outcome) := Apply(s, UpdateItem(id, expected, description, uom));
            && (outcome.Saved? <==>
                  && id in s.items && s.items[id].version == expected
                  && (uom.Some? && uom.value != s.items[id].baseUom ==> !WasMoved(s, id)))
            && (!outcome.Saved? ==> after == s)
            && (outcome.Saved? ==>
                  && ItemSavedAs(s, after, id) && after.items[id].status == s.items[id].status
                  && after.items[id].description == description.GetOr(s.items[id].description)
                  && after.items[id].baseUom == uom.GetOr(s.items[id].baseUom))
  {
    WasMovedMeans(s, id);
  }

  /** An item can be archived exactly when, in a sound ledger, none of it is left anywhere. */
  lemma ItemStatusExactly(s: State, id: Id, expected: nat, status: RecordStatus)
    requires Sound(s)
    ensures var (after, outcome) := Apply(s, SetItemStatus(id, expected, status));
            && (outcome.Saved? <==>
                  && id in s.items && s.items[id].version == expected
                  && (status == Archived ==> forall l :: Balance(s, id, l) == 0.0))
            && (!outcome.Saved? ==> after == s)
            && (outcome.Saved? ==>
                  && ItemSavedAs(s, after, id) && after.items[id].status == status
                  && after.items[id].description == s.items[id].description
                  && after.items[id].baseUom == s.items[id].baseUom)
  {
    EmptyItem(s, id);
  }

  /** A total along an item or a location is zero exactly when all its positions are. */
  lemma EmptyAlong(s: State, axis: Axis, id: Id)
    requires Sound(s)
    ensures Total(s.operations, Along(axis, id)) == 0.0 <==>
            forall x :: Total(s.operations, Cell(axis, id, x)) == 0.0
  {
    if Total(s.operations, Along(axis, id)) == 0.0 {
      forall x ensures Total(s.operations, Cell(axis, id, x)) == 0.0 {
        ZeroTotalMeansEmpty(s.operations, axis, id, x);
      }
    } else if forall x :: Total(s.operations, Cell(axis, id, x)) == 0.0 {
      TotalAlong(s.operations, axis, id);
      EmptyOutside(s.operations, axis, id, {});
    }
  }

  lemma EmptyItem(s: State, id: Id)
    requires Sound(s)
    ensures Total(s.operations, OfItem(id)) == 0.0 <==> forall l :: Balance(s, id, l) == 0.0
  {
    EmptyAlong(s, ItemAxis, id);
    forall l ensures Balance(s, id, l) == Total(s.operations, Cell(ItemAxis, id, l)) {
    }
    if forall l :: Balance(s, id, l) == 0.0 {
      forall x ensures Total(s.operations, Cell(ItemAxis, id, x)) == 0.0 {
        assert Balance(s, id, x) == 0.0;
      }
    }
  }

  lemma EmptyLocation(s: State, id: Id)
    requires Sound(s)
    ensures Total(s.operations, OfLocation(id)) == 0.0 <==> forall i :: Balance(s, i, id) == 0.0
  {
    EmptyAlong(s, LocationAxis, id);
    forall i ensures Balance(s, i, id) == Total(s.operations, Cell(LocationAxis, id, i)) {
    }
    if forall i :: Balance(s, i, id) == 0.0 {
      forall x ensures Total(s.operations, Cell(LocationAxis, id, x)) == 0.0 {
        assert Balance(s, x, id) == 0.0;
      }
    }
  }

  lemma {:induction false} EmptyOutside(operations: seq<Operation>, axis: Axis, id: Id, others: set<Id>)
    requires forall x :: Total(operations, Cell(axis, id, x)) == 0.0
    ensures Total(operations, Outside(axis, id, others)) == 0.0
    decreases Opposites(operations, axis) - others
  {
    if Opposites(operations, axis) <= others {
      TotalOutsideAll(operations, axis, id, others);
    } else {
      var left := Opposites(operations, axis) - others;
      var x := Beyond(Opposites(operations, axis), others);
      TotalSplit(operations, axis, id, others, x);
      assert Opposites(operations, axis) - (others + {x}) == left - {x};
      EmptyOutside(operations, axis, id, others + {x});
    }
  }

  lemma LocationUpdateExactly(s: State, id: Id, expected: nat, name: Id)
    ensures var (after, outcome) := Apply(s, UpdateLocation(id, expected, name));
            && (outcome.Saved? <==> id in s.locations && s.locations[id].version == expected)
            && (!outcome.Saved? ==> after == s)
            && (outcome.Saved? ==>
                  && LocationSavedAs(s, after, id) && after.locations[id].name == name
                  && after.locations[id].status == s.locations[id].status)
  {
  }

  /** A location can be archived exactly when, in a sound ledger, nothing is left at it. */
  lemma LocationStatusExactly(s: State, id: Id, expected: nat, status: RecordStatus)
    requires Sound(s)
    ensures var (after, outcome) := Apply(s, SetLocationStatus(id, expected, status));
            && (outcome.Saved? <==>
                  && id in s.locations && s.locations[id].version == expected
                  && (status == Archived ==> forall i :: Balance(s, i, id) == 0.0))
            && (!outcome.Saved? ==> after == s)
            && (outcome.Saved? ==>
                  && LocationSavedAs(s, after, id) && after.locations[id].status == status
                  && after.locations[id].name == s.locations[id].name)
  {
    EmptyLocation(s, id);
  }

  // ----- whole runs

  predicate EditsItem(r: Request, id: Id) {
    (r.UpdateItem? || r.SetItemStatus?) && r.id == id
  }

  predicate EditsLocation(r: Request, id: Id) {
    (r.UpdateLocation? || r.SetLocationStatus?) && r.id == id
  }

  /** Records stay, and their versions never fall. */
  ghost predicate Newer(s: State, s': State) {
    && (forall id :: id in s.items ==> id in s'.items && s.items[id].version <= s'.items[id].version)
    && (forall id :: id in s.locations ==> id in s'.locations && s.locations[id].version <= s'.locations[id].version)
  }

  lemma StepNewer(s: State, r: Request)
    ensures Newer(s, Apply(s, r).0)
  {
  }

  lemma {:induction false} RunNewer(start: State, requests: seq<Request>, k: nat)
    requires k <= |requests|
    ensures Newer(Run(start, requests[..k]), Run(start, requests))
  {
    if k == |requests| {
      assert requests[..k] == requests;
    } else {
      var n := |requests| - 1;
      assert requests[..n][..k] == requests[..k];
      RunNewer(start, requests[..n], k);
      StepNewer(Run(start, requests[..n]), requests[n]);
    }
  }

  lemma EditRaisesVersion(s: State, r: Request, id: Id)
    requires EditsItem(r, id) || EditsLocation(r, id)
    requires Apply(s, r).1.Saved?
    ensures EditsItem(r, id) ==>
      && id in s.items && s.items[id].version == r.expected
      && id in Apply(s, r).0.items && Apply(s, r).0.items[id].version == r.expected + 1
    ensures EditsLocation(r, id) ==>
      && id in s.locations && s.locations[id].version == r.expected
      && id in Apply(s, r).0.locations && Apply(s, r).0.locations[id].version == r.expected + 1
  {
  }

  /** No update is lost: of two saved edits of one item, or of one location, the later one
      expected a higher version. */
  lemma NoVersionSavedTwice(start: State, requests: seq<Request>, i: nat, j: nat, id: Id)
    requires i < j < |requests|
    requires (EditsItem(requests[i], id) && EditsItem(requests[j], id))
          || (EditsLocation(requests[i], id) && EditsLocation(requests[j], id))
    requires Apply(Run(start, requests[..i]), requests[i]).1.Saved?
    requires Apply(Run(start, requests[..j]), requests[j]).1.Saved?
    ensures requests[i].expected < requests[j].expected
  {
    assert requests[..i + 1][..i] == requests[..i] && requests[..j][..i + 1] == requests[..i + 1];
    EditRaisesVersion(Run(start, requests[..i]), requests[i], id);
    EditRaisesVersion(Run(start, requests[..j]), requests[j], id);
    RunNewer(start, requests[..j], i + 1);
  }
}
