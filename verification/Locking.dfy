/** Inventory transactions running concurrently under the service's locks.

    Each request is a program of lock acquisitions and checks, followed by an atomic commit.
    Locks are taken in the order idempotency key, items, locations by identifier, and are held
    to the end of the transaction. Checks read the committed ledger. */
module Locking {
  import opened Prelude
  import opened Ledger
  import opened LedgerInvariants

  // ----- locks and their order

  datatype LockName = KeyLock(key: Id) | ItemLock(item: Id) | LocationLock(location: Id)

  function Class(lock: LockName): nat {
    match lock
    case KeyLock(_) => 0
    case ItemLock(_) => 1
    case LocationLock(_) => 2
  }

  function Identifier(lock: LockName): Id {
    match lock
    case KeyLock(k) => k
    case ItemLock(i) => i
    case LocationLock(l) => l
  }

  predicate Below(a: LockName, b: LockName) {
    Class(a) < Class(b) || (Class(a) == Class(b) && Identifier(a) < Identifier(b))
  }

  /** `sorted(set(ids))`. */
  function SortIds(ids: seq<Id>): (r: seq<Id>)
    ensures forall i, j :: 0 <= i < j < |r| ==> r[i] < r[j]
    ensures forall x :: x in r <==> x in ids
  {
    if ids == [] then [] else InsertId(ids[0], SortIds(ids[1..]))
  }

  function InsertId(x: Id, ids: seq<Id>): (r: seq<Id>)
    requires forall i, j :: 0 <= i < j < |ids| ==> ids[i] < ids[j]
    ensures forall i, j :: 0 <= i < j < |r| ==> r[i] < r[j]
    ensures forall y :: y in r <==> y == x || y in ids
  {
    if ids == [] || x < ids[0] then [x] + ids
    else if x == ids[0] then ids
    else
      var rest := InsertId(x, ids[1..]);
      assert forall k :: 0 <= k < |rest| ==> rest[k] in rest && ids[0] < rest[k] by {
        forall k | 0 <= k < |rest| ensures rest[k] in rest && ids[0] < rest[k] {
          assert rest[k] in rest;
          assert rest[k] == x || rest[k] in ids[1..];
        }
      }
      [ids[0]] + rest
  }

  // ----- programs

  datatype Check =
    | IntentWellFormed | KeyUnused | OriginalReversible | ItemPostable | ItemsActive
    | LocationsPostable | NotFuture | NoHistory | Sufficient | NotReversed | ReversalCovered
    | ItemVersion | UnitFree | ItemEmptied | LocationVersion | LocationEmptied

  datatype Step = Acquire(lock: LockName) | Verify(check: Check)

  function ItemLocks(ids: seq<Id>): (steps: seq<Step>)
    ensures |steps| == |ids| && forall i :: 0 <= i < |ids| ==> steps[i] == Acquire(ItemLock(ids[i]))
  {
    seq(|ids|, i requires 0 <= i < |ids| => Acquire(ItemLock(ids[i])))
  }

  function LocationLocks(ids: seq<Id>): (steps: seq<Step>)
    ensures |steps| == |ids| && forall i :: 0 <= i < |ids| ==> steps[i] == Acquire(LocationLock(ids[i]))
  {
    seq(|ids|, i requires 0 <= i < |ids| => Acquire(LocationLock(ids[i])))
  }

  function ItemsOf(movements: seq<Movement>): (ids: seq<Id>)
    ensures |ids| == |movements|
    ensures forall j :: 0 <= j < |movements| ==> ids[j] == movements[j].item
  {
    seq(|movements|, j requires 0 <= j < |movements| => movements[j].item)
  }

  /** The movements a reversal would negate; none when there is nothing to reverse. */
  function OriginalMovements(s: State, intent: Intent): seq<Movement> {
    if intent.ReversalIntent? && intent.operation < |s.operations| then s.operations[intent.operation].movements
    else []
  }

  function PostingItems(s: State, intent: Intent): seq<Id> {
    match intent
    case MovementIntent(_, item, _, _, _, _, _, _) => [item]
    case TransferIntent(item, _, _, _, _, _, _, _) => [item]
    case ReversalIntent(_, _) => ItemsOf(OriginalMovements(s, intent))
  }

  function PostingLocations(s: State, intent: Intent): seq<Id> {
    match intent
    case MovementIntent(_, _, location, _, _, _, _, _) => [location]
    case TransferIntent(_, source, destination, _, _, _, _, _) => [source, destination]
    case ReversalIntent(_, _) => LocationsOf(OriginalMovements(s, intent))
  }

  /** The lookup under the key lock comes first; a reversal then reads its original. */
  function Opening(p: Posting): seq<Step> {
    [Verify(IntentWellFormed), Acquire(KeyLock(p.key)), Verify(KeyUnused), Verify(OriginalReversible)]
  }

  predicate Reversible(s: State, intent: Intent) {
    intent.ReversalIntent? ==>
      intent.operation < |s.operations| && s.operations[intent.operation].kind != Reversal
  }

  function PostingSteps(s: State, p: Posting): seq<Step> {
    if !Reversible(s, p.intent) then Opening(p)
    else
      Opening(p)
      + ItemLocks(SortIds(PostingItems(s, p.intent)))
      + [Verify(if p.intent.ReversalIntent? then ItemsActive else ItemPostable)]
      + LocationLocks(SortIds(PostingLocations(s, p.intent)))
      + if p.intent.ReversalIntent?
        then [Verify(LocationsPostable), Verify(NotReversed), Verify(ReversalCovered)]
        else [Verify(LocationsPostable), Verify(NotFuture), Verify(NoHistory), Verify(Sufficient)]
  }

  function Steps(s: State, r: Request): seq<Step> {
    match r
    case CreateItem(_, _, _) => []
    case CreateLocation(_, _) => []
    case UpdateItem(id, _, _, _) => [Acquire(ItemLock(id)), Verify(ItemVersion), Verify(UnitFree)]
    case SetItemStatus(id, _, _) => [Acquire(ItemLock(id)), Verify(ItemVersion), Verify(ItemEmptied)]
    case UpdateLocation(id, _, _) => [Acquire(LocationLock(id)), Verify(LocationVersion)]
    case SetLocationStatus(id, _, _) => [Acquire(LocationLock(id)), Verify(LocationVersion), Verify(LocationEmptied)]
    case Post(p) => PostingSteps(s, p)
  }

  // ----- what each check answers

  function Rejection(error: Option<Error>): Option<Outcome> {
    if error.Some? then Some(Rejected(error.value)) else None
  }

  function When(refused: bool, error: Error): Option<Outcome> {
    if refused then Some(Rejected(error)) else None
  }

  function ItemRefusal(s: State, item: Id): Option<Error> {
    if item !in s.items then Some(NotFound)
    else if s.items[item].status != Active then Some(InactiveItem)
    else if s.items[item].baseUom.None? then Some(BaseUomRequired)
    else None
  }

  function VersionRefusal(found: bool, version: nat, expected: nat): Option<Outcome> {
    if !found then Some(Rejected(NotFound)) else When(version != expected, VersionConflict)
  }

  /** The answer of a posting's check, if it ends the request. */
  function PostingVerdict(s: State, p: Posting, check: Check): Option<Outcome> {
    var i := p.intent;
    match check
    case IntentWellFormed => Rejection(Malformed(i))
    case KeyUnused => Replay(s, p)
    case OriginalReversible =>
      if !i.ReversalIntent? then None
      else if i.operation >= |s.operations| then Some(Rejected(NotFound))
      else When(s.operations[i.operation].kind == Reversal, ReversalNotReversible)
    case ItemPostable => if i.ReversalIntent? then None else Rejection(ItemRefusal(s, i.item))
    case ItemsActive =>
      When(exists m :: m in OriginalMovements(s, i) && !ItemIs(s, m.item, Active), InactiveItem)
    case LocationsPostable => Rejection(LocationRefusal(s, PostingLocations(s, i)))
    case NotFuture => When(OccurredAt(p) > p.now, FutureOccurredAt)
    case NoHistory =>
      When(i.MovementIntent? && i.kind == OpeningBalance && HasMovement(s.operations, At(i.item, i.location)),
           OpeningBalanceExists)
    case Sufficient =>
      if i.MovementIntent? then
        When(Outbound(i.kind) && Balance(s, i.item, i.location) < i.quantity, InsufficientStock)
      else if i.TransferIntent? then When(Balance(s, i.item, i.source) < i.quantity, InsufficientStock)
      else None
    case NotReversed => When(i.ReversalIntent? && IsReversed(s.operations, i.operation), AlreadyReversed)
    case ReversalCovered => When(Uncovered(s, OriginalMovements(s, i)), InsufficientStock)
    case _ => None
  }

  function Verdict(s: State, r: Request, check: Check): Option<Outcome> {
    match r
    case Post(p) => PostingVerdict(s, p, check)
    case UpdateItem(id, expected, _, uom) =>
      (match check
       case ItemVersion => VersionRefusal(id in s.items, if id in s.items then s.items[id].version else 0, expected)
       case UnitFree =>
         When(uom.Some? && id in s.items && s.items[id].baseUom != uom.value && HasMovement(s.operations, OfItem(id)),
              BaseUomLocked)
       case _ => None)
    case SetItemStatus(id, expected, status) =>
      (match check
       case ItemVersion => VersionRefusal(id in s.items, if id in s.items then s.items[id].version else 0, expected)
       case ItemEmptied => When(status == Archived && Total(s.operations, OfItem(id)) != 0.0, StockRemaining)
       case _ => None)
    case UpdateLocation(id, expected, _) =>
      (match check
       case LocationVersion =>
         VersionRefusal(id in s.locations, if id in s.locations then s.locations[id].version else 0, expected)
       case _ => None)
    case SetLocationStatus(id, expected, status) =>
      (match check
       case LocationVersion =>
         VersionRefusal(id in s.locations, if id in s.locations then s.locations[id].version else 0, expected)
       case LocationEmptied => When(status == Archived && Total(s.operations, OfLocation(id)) != 0.0, StockRemaining)
       case _ => None)
    case CreateItem(_, _, _) => None
    case CreateLocation(_, _) => None
  }

  /** What the commit writes, computed from the locked rows. A create relies on the unique
      constraint the insert itself checks. */
  function Effect(s: State, r: Request): (State, Outcome) {
    match r
    case CreateItem(_, _, _) => Apply(s, r)
    case CreateLocation(_, _) => Apply(s, r)
    case UpdateItem(id, _, description, uom) =>
      if id !in s.items then (s, Saved)
      else
        var item := s.items[id];
        var saved := Item(description.GetOr(item.description), uom.GetOr(item.baseUom), item.status, item.version + 1);
        (s.(items := s.items[id := saved]), Saved)
    case SetItemStatus(id, _, status) =>
      if id !in s.items then (s, Saved)
      else (s.(items := s.items[id := s.items[id].(status := status, version := s.items[id].version + 1)]), Saved)
    case UpdateLocation(id, _, name) =>
      if id !in s.locations then (s, Saved)
      else
        var location := s.locations[id];
        (s.(locations := s.locations[id := location.(name := name, version := location.version + 1)]), Saved)
    case SetLocationStatus(id, _, status) =>
      if id !in s.locations then (s, Saved)
      else
        var location := s.locations[id];
        (s.(locations := s.locations[id := location.(status := status, version := location.version + 1)]), Saved)
    case Post(p) => (s.(operations := s.operations + [OperationOf(s, p)]), Posted(|s.operations|, true))
  }

  /** The answer of the first check that ends the request, if any. */
  function Decide(s: State, r: Request, steps: seq<Step>): Option<Outcome> {
    if steps == [] then None
    else if steps[0].Verify? && Verdict(s, r, steps[0].check).Some? then Verdict(s, r, steps[0].check)
    else Decide(s, r, steps[1..])
  }

  lemma {:induction false} DecideConcat(s: State, r: Request, a: seq<Step>, b: seq<Step>)
    ensures Decide(s, r, a + b) == if Decide(s, r, a).Some? then Decide(s, r, a) else Decide(s, r, b)
  {
    if a == [] {
      assert a + b == b;
    } else {
      assert (a + b)[1..] == a[1..] + b;
      DecideConcat(s, r, a[1..], b);
    }
  }

  lemma {:induction false} LocksDecideNothing(s: State, r: Request, steps: seq<Step>)
    requires forall i :: 0 <= i < |steps| ==> steps[i].Acquire?
    ensures Decide(s, r, steps).None?
  {
    if steps != [] {
      LocksDecideNothing(s, r, steps[1..]);
    }
  }

  lemma DecideOne(s: State, r: Request, check: Check)
    ensures Decide(s, r, [Verify(check)]) == Verdict(s, r, check)
  {
    assert [Verify(check)][1..] == [];
  }

  lemma DecideThree(s: State, r: Request, a: Check, b: Check, c: Check)
    ensures Decide(s, r, [Verify(a), Verify(b), Verify(c)]) ==
            if Verdict(s, r, a).Some? then Verdict(s, r, a)
            else if Verdict(s, r, b).Some? then Verdict(s, r, b) else Verdict(s, r, c)
  {
    assert [Verify(a), Verify(b), Verify(c)] == [Verify(a)] + ([Verify(b)] + [Verify(c)]);
    DecideConcat(s, r, [Verify(a)], [Verify(b)] + [Verify(c)]);
    DecideConcat(s, r, [Verify(b)], [Verify(c)]);
    DecideOne(s, r, a);
    DecideOne(s, r, b);
    DecideOne(s, r, c);
  }

  lemma OpeningDecides(s: State, p: Posting)
    ensures Decide(s, Post(p), Opening(p)) ==
            if Malformed(p.intent).Some? then Some(Rejected(Malformed(p.intent).value))
            else if Replay(s, p).Some? then Replay(s, p)
            else PostingVerdict(s, p, OriginalReversible)
  {
    var r := Post(p);
    var rest := [Acquire(KeyLock(p.key))] + ([Verify(KeyUnused)] + [Verify(OriginalReversible)]);
    assert Opening(p) == [Verify(IntentWellFormed)] + rest;
    DecideConcat(s, r, [Verify(IntentWellFormed)], rest);
    DecideConcat(s, r, [Acquire(KeyLock(p.key))], [Verify(KeyUnused)] + [Verify(OriginalReversible)]);
    DecideConcat(s, r, [Verify(KeyUnused)], [Verify(OriginalReversible)]);
    LocksDecideNothing(s, r, [Acquire(KeyLock(p.key))]);
    DecideOne(s, r, IntentWellFormed);
    DecideOne(s, r, KeyUnused);
    DecideOne(s, r, OriginalReversible);
  }

  /** The parts of a posting's program after its opening. */
  function StockSteps(s: State, p: Posting): seq<Step> {
    ItemLocks(SortIds(PostingItems(s, p.intent)))
    + ([Verify(if p.intent.ReversalIntent? then ItemsActive else ItemPostable)]
       + (LocationLocks(SortIds(PostingLocations(s, p.intent)))
          + FinalChecks(p)))
  }

  function FinalChecks(p: Posting): seq<Step> {
    if p.intent.ReversalIntent?
    then [Verify(LocationsPostable), Verify(NotReversed), Verify(ReversalCovered)]
    else [Verify(LocationsPostable), Verify(NotFuture), Verify(NoHistory), Verify(Sufficient)]
  }

  lemma PostingStepsSplit(s: State, p: Posting)
    requires Reversible(s, p.intent)
    ensures PostingSteps(s, p) == Opening(p) + StockSteps(s, p)
  {
    var items := ItemLocks(SortIds(PostingItems(s, p.intent)));
    var check := [Verify(if p.intent.ReversalIntent? then ItemsActive else ItemPostable)];
    var locations := LocationLocks(SortIds(PostingLocations(s, p.intent)));
    assert Opening(p) + items + check + locations + FinalChecks(p)
        == Opening(p) + (items + (check + (locations + FinalChecks(p))));
  }

  lemma StockStepsDecide(s: State, p: Posting)
    ensures Decide(s, Post(p), StockSteps(s, p)) ==
            var first := PostingVerdict(s, p, if p.intent.ReversalIntent? then ItemsActive else ItemPostable);
            if first.Some? then first else Decide(s, Post(p), FinalChecks(p))
  {
    var r := Post(p);
    var items := ItemLocks(SortIds(PostingItems(s, p.intent)));
    var c := if p.intent.ReversalIntent? then ItemsActive else ItemPostable;
    var locations := LocationLocks(SortIds(PostingLocations(s, p.intent)));
    DecideConcat(s, r, items, [Verify(c)] + (locations + FinalChecks(p)));
    DecideConcat(s, r, [Verify(c)], locations + FinalChecks(p));
    DecideConcat(s, r, locations, FinalChecks(p));
    LocksDecideNothing(s, r, items);
    LocksDecideNothing(s, r, locations);
    DecideOne(s, r, c);
  }

  lemma FinalChecksDecide(s: State, p: Posting)
    ensures Decide(s, Post(p), FinalChecks(p)) ==
            var a := PostingVerdict(s, p, LocationsPostable);
            if a.Some? then a
            else if p.intent.ReversalIntent? then
              var b := PostingVerdict(s, p, NotReversed);
              if b.Some? then b else PostingVerdict(s, p, ReversalCovered)
            else
              var b := PostingVerdict(s, p, NotFuture);
              if b.Some? then b
              else
                var c := PostingVerdict(s, p, NoHistory);
                if c.Some? then c else PostingVerdict(s, p, Sufficient)
  {
    var r := Post(p);
    if p.intent.ReversalIntent? {
      DecideThree(s, r, LocationsPostable, NotReversed, ReversalCovered);
    } else {
      assert FinalChecks(p) == [Verify(LocationsPostable)] + [Verify(NotFuture), Verify(NoHistory), Verify(Sufficient)];
      DecideConcat(s, r, [Verify(LocationsPostable)], [Verify(NotFuture), Verify(NoHistory), Verify(Sufficient)]);
      DecideOne(s, r, LocationsPostable);
      DecideThree(s, r, NotFuture, NoHistory, Sufficient);
    }
  }

  lemma MovementStockDecides(s: State, p: Posting)
    requires p.intent.MovementIntent?
    ensures Decide(s, Post(p), StockSteps(s, p)) == Rejection(MovementRefusal(s, p))
  {
    StockStepsDecide(s, p);
    FinalChecksDecide(s, p);
  }

  lemma TransferStockDecides(s: State, p: Posting)
    requires p.intent.TransferIntent?
    ensures Decide(s, Post(p), StockSteps(s, p)) == Rejection(TransferRefusal(s, p))
  {
    StockStepsDecide(s, p);
    FinalChecksDecide(s, p);
  }

  lemma ReversalStockDecides(s: State, p: Posting)
    requires p.intent.ReversalIntent? && Reversible(s, p.intent)
    ensures Decide(s, Post(p), StockSteps(s, p)) == Rejection(ReversalRefusal(s, p))
  {
    StockStepsDecide(s, p);
    FinalChecksDecide(s, p);
  }

  lemma PostingDecides(s: State, p: Posting)
    ensures Decide(s, Post(p), PostingSteps(s, p)) == Refusal(s, p)
  {
    OpeningDecides(s, p);
    if Reversible(s, p.intent) {
      PostingStepsSplit(s, p);
      DecideConcat(s, Post(p), Opening(p), StockSteps(s, p));
      match p.intent
      case MovementIntent(_, _, _, _, _, _, _, _) => MovementStockDecides(s, p);
      case TransferIntent(_, _, _, _, _, _, _, _) => TransferStockDecides(s, p);
      case ReversalIntent(_, _) => ReversalStockDecides(s, p);
    }
  }

  /** Running a request's checks in order and then committing is exactly what the ledger's
      transition function does. */
  lemma ProgramIsApply(s: State, r: Request)
    ensures Apply(s, r) == match Decide(s, r, Steps(s, r)) case Some(o) => (s, o) case None => Effect(s, r)
  {
    if r.Post? {
      PostingDecides(s, r.posting);
    } else {
      MasterProgramIsApply(s, r);
    }
  }

  lemma MasterProgramIsApply(s: State, r: Request)
    requires !r.Post?
    ensures Apply(s, r) == match Decide(s, r, Steps(s, r)) case Some(o) => (s, o) case None => Effect(s, r)
  {
    match r
    case CreateItem(_, _, _) =>
    case CreateLocation(_, _) =>
    case UpdateItem(id, _, _, _) => TwoChecksDecide(s, r, ItemLock(id), ItemVersion, UnitFree);
    case SetItemStatus(id, _, _) => TwoChecksDecide(s, r, ItemLock(id), ItemVersion, ItemEmptied);
    case SetLocationStatus(id, _, _) => TwoChecksDecide(s, r, LocationLock(id), LocationVersion, LocationEmptied);
    case UpdateLocation(id, _, _) =>
      assert Steps(s, r) == [Acquire(LocationLock(id))] + [Verify(LocationVersion)];
      DecideConcat(s, r, [Acquire(LocationLock(id))], [Verify(LocationVersion)]);
      LocksDecideNothing(s, r, [Acquire(LocationLock(id))]);
      DecideOne(s, r, LocationVersion);
  }

  lemma TwoChecksDecide(s: State, r: Request, lock: LockName, a: Check, b: Check)
    ensures Decide(s, r, [Acquire(lock), Verify(a), Verify(b)])
         == if Verdict(s, r, a).Some? then Verdict(s, r, a) else Verdict(s, r, b)
  {
    assert [Acquire(lock), Verify(a), Verify(b)] == [Acquire(lock)] + ([Verify(a)] + [Verify(b)]);
    DecideConcat(s, r, [Acquire(lock)], [Verify(a)] + [Verify(b)]);
    DecideConcat(s, r, [Verify(a)], [Verify(b)]);
    LocksDecideNothing(s, r, [Acquire(lock)]);
    DecideOne(s, r, a);
    DecideOne(s, r, b);
  }
}
