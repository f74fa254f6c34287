/** What accepted postings do to balances, and exactly which postings are accepted, told from the
    intents alone. */
module Postings {
  import opened Prelude
  import opened Ledger
  import opened LedgerInvariants

  /** The posting was accepted now, and not answered from an earlier one. */
  predicate Accepted(s: State, p: Posting) {
    ApplyPosting(s, p).1.Posted? && ApplyPosting(s, p).1.created
  }

  /** An accepted posting appends one operation, which repeats what was asked; nothing else
      changes, and anything but an accepted posting changes nothing. */
  lemma AcceptedAppendsOne(s: State, p: Posting)
    ensures !Accepted(s, p) ==> ApplyPosting(s, p).0 == s
    ensures Accepted(s, p) ==>
      var (after, outcome) := ApplyPosting(s, p);
      && |after.operations| == |s.operations| + 1 && outcome.operation == |s.operations|
      && after == s.(operations := s.operations + [after.operations[|s.operations|]])
      && var op := after.operations[|s.operations|];
         && op.actor == p.actor && op.key == p.key && op.intent == p.intent && op.created == p.now
         && (p.intent.MovementIntent? ==> op.kind == p.intent.kind && op.occurred == p.intent.occurredAt.GetOr(p.now))
         && (p.intent.TransferIntent? ==> op.kind == Transfer && op.occurred == p.intent.occurredAt.GetOr(p.now))
         && (p.intent.ReversalIntent? ==> op.kind == Reversal && op.reverses == Some(p.intent.operation))
  {
  }

  predicate Raises(kind: Kind) {
    kind in {OpeningBalance, StockReceipt, AdjustmentIn}
  }

  predicate Lowers(kind: Kind) {
    kind in {StockIssue, AdjustmentOut}
  }

  lemma OneMovement(s: State, p: Posting)
    requires Accepted(s, p) && p.intent.MovementIntent?
    ensures var i := p.intent;
            && (Raises(i.kind) || Lowers(i.kind)) && i.quantity > 0.0
            && ApplyPosting(s, p).0.operations == s.operations + [OperationOf(s, p)]
            && OperationOf(s, p).movements
               == [Movement(i.item, i.location, if Raises(i.kind) then i.quantity else -i.quantity)]
  {
  }

  lemma OneMovementMoves(operations: seq<Operation>, op: Operation, m: Movement, scope: Scope)
    requires op.movements == [m]
    ensures Total(operations + [op], scope)
         == Total(operations, scope) + if Covers(scope, m) then m.delta else 0.0
  {
    TotalSnoc(operations, op, scope);
    NetOne(m, scope);
  }

  /** An opening balance, a receipt or an upward adjustment of q raises the balance at its item and
      location by exactly q, an issue or a downward adjustment lowers it by exactly q, and every
      other balance stays. */
  lemma MovementMoves(s: State, p: Posting, item: Id, location: Id)
    requires Accepted(s, p) && p.intent.MovementIntent?
    ensures var i, before, after := p.intent, Balance(s, item, location), Balance(ApplyPosting(s, p).0, item, location);
            && (i.item == item && i.location == location && Raises(i.kind) ==> after == before + i.quantity)
            && (i.item == item && i.location == location && Lowers(i.kind) ==> after == before - i.quantity)
            && (i.item != item || i.location != location ==> after == before)
            && (Raises(i.kind) || Lowers(i.kind)) && i.quantity > 0.0
  {
    var i, op := p.intent, OperationOf(s, p);
    var m := Movement(i.item, i.location, if Raises(i.kind) then i.quantity else -i.quantity);
    OneMovement(s, p);
    OneMovementMoves(s.operations, op, m, At(item, location));
  }

  /** A transfer of q lowers the balance at its source by exactly q and raises the one at its
      destination by exactly q, and every other balance stays. */
  lemma TransferMoves(s: State, p: Posting, item: Id, location: Id)
    requires Accepted(s, p) && p.intent.TransferIntent?
    ensures var i, before, after := p.intent, Balance(s, item, location), Balance(ApplyPosting(s, p).0, item, location);
            && (i.item == item && i.source == location ==> after == before - i.quantity)
            && (i.item == item && i.destination == location ==> after == before + i.quantity)
            && (i.item != item || location !in {i.source, i.destination} ==> after == before)
            && i.source != i.destination && i.quantity > 0.0
  {
    var op := OperationOf(s, p);
    TotalSnoc(s.operations, op, At(item, location));
    NetTwo(op.movements[0], op.movements[1], At(item, location));
    assert op.movements == [op.movements[0], op.movements[1]];
  }

  // ----- balances are what was asked for

  /** What operation k was asked to do to a balance; a reversal was asked to undo an earlier one. */
  function Asked(operations: seq<Operation>, k: nat, item: Id, location: Id): real
    requires k < |operations|
    decreases k
  {
    match operations[k].intent
    case MovementIntent(kind, i, l, q, _, _, _, _) =>
      if i != item || l != location then 0.0
      else if Raises(kind) then q
      else -q
    case TransferIntent(i, source, destination, q, _, _, _, _) =>
      if i != item then 0.0
      else (if destination == location then q else 0.0) - (if source == location then q else 0.0)
    case ReversalIntent(j, _) => if j < k then -Asked(operations, j, item, location) else 0.0
  }

  function AskedTotal(operations: seq<Operation>, n: nat, item: Id, location: Id): real
    requires n <= |operations|
  {
    if n == 0 then 0.0
    else AskedTotal(operations, n - 1, item, location) + Asked(operations, n - 1, item, location)
  }

  lemma {:induction false} AskedPrefix(operations: seq<Operation>, more: seq<Operation>, k: nat, item: Id, location: Id)
    requires k < |operations| && operations <= more
    ensures Asked(more, k, item, location) == Asked(operations, k, item, location)
    decreases k
  {
    if operations[k].intent.ReversalIntent? && operations[k].intent.operation < k {
      AskedPrefix(operations, more, operations[k].intent.operation, item, location);
    }
  }

  lemma {:induction false} AskedTotalPrefix(
      operations: seq<Operation>, more: seq<Operation>, n: nat, item: Id, location: Id)
    requires n <= |operations| && operations <= more
    ensures AskedTotal(more, n, item, location) == AskedTotal(operations, n, item, location)
  {
    if n > 0 {
      AskedPrefix(operations, more, n - 1, item, location);
      AskedTotalPrefix(operations, more, n - 1, item, location);
    }
  }

  /** Every operation's movements do what its intent asked. */
  ghost predicate DoesAsked(operations: seq<Operation>, k: nat, item: Id, location: Id)
    requires k < |operations|
  {
    Net(operations[k].movements, At(item, location)) == Asked(operations, k, item, location)
  }

  ghost predicate AllDoAsked(operations: seq<Operation>, item: Id, location: Id) {
    && (forall k :: 0 <= k < |operations| ==> DoesAsked(operations, k, item, location))
    && Total(operations, At(item, location)) == AskedTotal(operations, |operations|, item, location)
  }

  lemma AppendedDoesAsked(s: State, p: Posting, item: Id, location: Id)
    requires AllDoAsked(s.operations, item, location) && Refusal(s, p).None?
    ensures var all := s.operations + [OperationOf(s, p)];
            DoesAsked(all, |s.operations|, item, location)
  {
    var op, n := OperationOf(s, p), |s.operations|;
    var all := s.operations + [op];
    match p.intent
    case MovementIntent(_, _, _, _, _, _, _, _) =>
      assert op.movements == [op.movements[0]];
      NetOne(op.movements[0], At(item, location));
    case TransferIntent(_, _, _, _, _, _, _, _) =>
      assert op.movements == [op.movements[0], op.movements[1]];
      NetTwo(op.movements[0], op.movements[1], At(item, location));
    case ReversalIntent(j, _) =>
      assert DoesAsked(s.operations, j, item, location);
      NetNegated(s.operations[j].movements, At(item, location));
      AskedPrefix(s.operations, all, j, item, location);
  }

  lemma PostingDoesAsked(s: State, p: Posting, item: Id, location: Id)
    requires AllDoAsked(s.operations, item, location)
    ensures AllDoAsked(ApplyPosting(s, p).0.operations, item, location)
  {
    if Refusal(s, p).None? {
      var op, n := OperationOf(s, p), |s.operations|;
      var all := s.operations + [op];
      AppendedDoesAsked(s, p, item, location);
      forall k | 0 <= k < |all| ensures DoesAsked(all, k, item, location) {
        if k < n {
          assert DoesAsked(s.operations, k, item, location);
          AskedPrefix(s.operations, all, k, item, location);
        }
      }
      TotalSnoc(s.operations, op, At(item, location));
      AskedTotalPrefix(s.operations, all, n, item, location);
      assert DoesAsked(all, n, item, location);
    }
  }

  /** In every reachable ledger every balance is the sum of the quantities asked for by the posted
      intents: in what came in, out what went out, and reversed ones taken back. */
  lemma {:induction false} BalanceIsAsked(requests: seq<Request>, item: Id, location: Id)
    ensures var ledger := Run(EMPTY, requests);
            && AllDoAsked(ledger.operations, item, location)
            && Balance(ledger, item, location)
               == AskedTotal(ledger.operations, |ledger.operations|, item, location)
  {
    if requests != [] {
      var n := |requests| - 1;
      BalanceIsAsked(requests[..n], item, location);
      if requests[n].Post? {
        PostingDoesAsked(Run(EMPTY, requests[..n]), requests[n].posting, item, location);
      }
    }
  }

  // ----- which postings are accepted

  predicate Fresh(s: State, key: Id) {
    forall k :: 0 <= k < |s.operations| ==> s.operations[k].key != key
  }

  predicate StockedItem(s: State, item: Id) {
    item in s.items && s.items[item].status == Active && s.items[item].baseUom != None
  }

  predicate UsableLocation(s: State, location: Id) {
    location in s.locations && s.locations[location].status == Active
  }

  predicate NotFuture(at: Option<int>, now: int) {
    at.Some? ==> at.value <= now
  }

  /** Nothing was ever moved at the position. */
  ghost predicate Untouched(s: State, item: Id, location: Id) {
    forall k, m :: 0 <= k < |s.operations| && m in s.operations[k].movements ==>
      m.item != item || m.location != location
  }

  lemma UntouchedMeans(s: State, item: Id, location: Id)
    ensures Untouched(s, item, location) <==> !HasMovement(s.operations, At(item, location))
  {
    if HasMovement(s.operations, At(item, location)) {
      var k :| 0 <= k < |s.operations| && Moves(s.operations[k], At(item, location));
      var m :| m in s.operations[k].movements && Covers(At(item, location), m);
    } else {
      forall k, m | 0 <= k < |s.operations| && m in s.operations[k].movements
        ensures m.item != item || m.location != location
      {
        assert !Moves(s.operations[k], At(item, location));
        assert !Covers(At(item, location), m);
      }
    }
  }

  lemma FreshMeans(s: State, p: Posting)
    ensures Fresh(s, p.key) <==> FindKey(s.operations, p.key) == |s.operations|
    ensures Fresh(s, p.key) <==> Replay(s, p).None?
  {
  }

  /** Openings, receipts, issues and adjustments that are accepted are exactly these. */
  lemma MovementAcceptedExactly(s: State, p: Posting)
    requires p.intent.MovementIntent?
    ensures var i := p.intent;
            Accepted(s, p) <==>
            && (Raises(i.kind) || Lowers(i.kind)) && i.quantity > 0.0 && Fresh(s, p.key)
            && StockedItem(s, i.item) && UsableLocation(s, i.location) && NotFuture(i.occurredAt, p.now)
            && (i.kind == OpeningBalance ==> Untouched(s, i.item, i.location))
            && (Lowers(i.kind) ==> i.quantity <= Balance(s, i.item, i.location))
  {
    FreshMeans(s, p);
    UntouchedMeans(s, p.intent.item, p.intent.location);
    assert p.intent.location in [p.intent.location];
  }

  /** And so are transfers. */
  lemma TransferAcceptedExactly(s: State, p: Posting)
    requires p.intent.TransferIntent?
    ensures var i := p.intent;
            Accepted(s, p) <==>
            && i.source != i.destination && i.quantity > 0.0 && Fresh(s, p.key)
            && StockedItem(s, i.item) && UsableLocation(s, i.source) && UsableLocation(s, i.destination)
            && NotFuture(i.occurredAt, p.now)
            && i.quantity <= Balance(s, i.item, i.source)
  {
    FreshMeans(s, p);
    var both := [p.intent.source, p.intent.destination];
    assert both[0] in both && both[1] in both;
  }

  /** Operation k is an original that nothing reversed, its items and locations are in use, and
      taking it back leaves none of its positions negative. */
  ghost predicate CanBeReversed(s: State, k: nat) {
    && k < |s.operations| && s.operations[k].kind != Reversal
    && (forall j :: 0 <= j < |s.operations| ==> s.operations[j].reverses != Some(k))
    && (forall m :: m in s.operations[k].movements ==>
          && m.item in s.items && s.items[m.item].status == Active && UsableLocation(s, m.location)
          && m.delta <= Balance(s, m.item, m.location))
  }

  /** A reversal is accepted exactly when its operation can be reversed. */
  lemma ReversalAcceptedExactly(s: State, p: Posting)
    requires p.intent.ReversalIntent?
    ensures Accepted(s, p) <==> Fresh(s, p.key) && CanBeReversed(s, p.intent.operation)
  {
    FreshMeans(s, p);
    var k := p.intent.operation;
    if k < |s.operations| {
      LocationsMean(s, s.operations[k].movements);
    }
  }

  lemma LocationsMean(s: State, movements: seq<Movement>)
    ensures LocationRefusal(s, LocationsOf(movements)).None? <==>
            forall m :: m in movements ==> UsableLocation(s, m.location)
  {
    var ids := LocationsOf(movements);
    forall m | m in movements ensures m.location in ids {
      var j :| 0 <= j < |movements| && movements[j] == m;
      assert ids[j] == m.location;
    }
    forall l | l in ids ensures exists m :: m in movements && m.location == l {
      var j :| 0 <= j < |ids| && ids[j] == l;
      assert movements[j] in movements;
    }
  }
}
