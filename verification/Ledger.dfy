/** The append-only inventory ledger of one organization and what each request does to it.

    An operation row carries its movement rows; operations are numbered in commit order. Row
    identifiers, actors, units, times and free text are integers. */
module Ledger {
  import opened Prelude

  type Id = int

  datatype Kind =
    | OpeningBalance | StockReceipt | StockIssue | AdjustmentIn | AdjustmentOut | Transfer | Reversal

  datatype Item = Item(description: Id, baseUom: Option<Id>, status: RecordStatus, version: nat)

  datatype Location = Location(name: Id, status: RecordStatus, version: nat)

  datatype Movement = Movement(item: Id, location: Id, delta: real)

  /** What a caller asks to post. Two requests have the same fingerprint exactly when their
      intents are equal. The fingerprint is taken of the quantity and the time as they were
      written, so `spelling` stands for how: 1 and 1.0, or one instant in two time zones, are
      different intents. */
  datatype Intent =
    | MovementIntent(kind: Kind, item: Id, location: Id, quantity: real, occurredAt: Option<int>,
                     reference: Option<Id>, note: Option<Id>, spelling: Id)
    | TransferIntent(item: Id, source: Id, destination: Id, quantity: real, occurredAt: Option<int>,
                     reference: Option<Id>, note: Option<Id>, spelling: Id)
    | ReversalIntent(operation: nat, note: Option<Id>)

  datatype Operation = Operation(
    kind: Kind, actor: Id, occurred: int, created: int, key: Id, intent: Intent,
    reverses: Option<nat>, movements: seq<Movement>)

  datatype State = State(items: map<Id, Item>, locations: map<Id, Location>, operations: seq<Operation>)

  const EMPTY: State := State(map[], map[], [])

  datatype Error =
    | InvalidOperation | SameLocation | InvalidQuantity | IdempotencyConflict | NotFound
    | InactiveItem | BaseUomRequired | InactiveLocation | FutureOccurredAt | OpeningBalanceExists
    | InsufficientStock | ReversalNotReversible | AlreadyReversed | VersionConflict | BaseUomLocked
    | StockRemaining | DuplicateRecord

  datatype Outcome = Saved | Posted(operation: nat, created: bool) | Rejected(error: Error)

  /** A posting by an authorized actor; `now` is the service clock. */
  datatype Posting = Posting(actor: Id, key: Id, intent: Intent, now: int)

  datatype Request =
    | CreateItem(id: Id, description: Id, baseUom: Option<Id>)
    | UpdateItem(id: Id, expected: nat, newDescription: Option<Id>, newUom: Option<Option<Id>>)
    | SetItemStatus(id: Id, expected: nat, status: RecordStatus)
    | CreateLocation(id: Id, name: Id)
    | UpdateLocation(id: Id, expected: nat, name: Id)
    | SetLocationStatus(id: Id, expected: nat, status: RecordStatus)
    | Post(posting: Posting)

  // ----- balances

  datatype Axis = ItemAxis | LocationAxis

  /** The movements a sum ranges over: one position, a whole item or location, or all of an
      item's (location's) movements outside some locations (items). */
  datatype Scope =
    | At(item: Id, location: Id)
    | Along(axis: Axis, id: Id)
    | Outside(axis: Axis, id: Id, others: set<Id>)

  function OfItem(item: Id): Scope {
    Along(ItemAxis, item)
  }

  function OfLocation(location: Id): Scope {
    Along(LocationAxis, location)
  }

  function On(m: Movement, axis: Axis): Id {
    if axis == ItemAxis then m.item else m.location
  }

  function Across(m: Movement, axis: Axis): Id {
    if axis == ItemAxis then m.location else m.item
  }

  predicate Covers(scope: Scope, m: Movement) {
    match scope
    case At(i, l) => m.item == i && m.location == l
    case Along(axis, id) => On(m, axis) == id
    case Outside(axis, id, others) => On(m, axis) == id && Across(m, axis) !in others
  }

  function Net(movements: seq<Movement>, scope: Scope): real {
    if movements == [] then 0.0
    else
      var n := |movements| - 1;
      Net(movements[..n], scope) + if Covers(scope, movements[n]) then movements[n].delta else 0.0
  }

  /** `SUM(quantity_delta)` over the movements in scope. */
  function Total(operations: seq<Operation>, scope: Scope): real {
    if operations == [] then 0.0
    else
      var n := |operations| - 1;
      Total(operations[..n], scope) + Net(operations[n].movements, scope)
  }

  function Balance(s: State, item: Id, location: Id): real {
    Total(s.operations, At(item, location))
  }

  predicate Moves(operation: Operation, scope: Scope) {
    exists m :: m in operation.movements && Covers(scope, m)
  }

  /** Some movement in scope exists. */
  predicate HasMovement(operations: seq<Operation>, scope: Scope) {
    exists k :: 0 <= k < |operations| && Moves(operations[k], scope)
  }

  // ----- reading the ledger

  /** Index of the operation with the idempotency key, or the number of operations. */
  function FindKey(operations: seq<Operation>, key: Id): (k: nat)
    ensures k <= |operations|
    ensures k < |operations| ==> operations[k].key == key
    ensures forall j :: 0 <= j < k ==> operations[j].key != key
    decreases |operations|
  {
    if operations == [] then 0
    else if operations[0].key == key then 0
    else 1 + FindKey(operations[1..], key)
  }

  predicate IsReversed(operations: seq<Operation>, k: nat) {
    exists j :: 0 <= j < |operations| && operations[j].reverses == Some(k)
  }

  predicate ItemIs(s: State, item: Id, status: RecordStatus) {
    item in s.items && s.items[item].status == status
  }

  predicate LocationIs(s: State, location: Id, status: RecordStatus) {
    location in s.locations && s.locations[location].status == status
  }

  predicate Outbound(kind: Kind) {
    kind in {StockIssue, AdjustmentOut, Transfer}
  }

  // ----- postings

  function KindOf(intent: Intent): Kind {
    match intent
    case MovementIntent(kind, _, _, _, _, _, _, _) => kind
    case TransferIntent(_, _, _, _, _, _, _, _) => Transfer
    case ReversalIntent(_, _) => Reversal
  }

  function OccurredAt(p: Posting): int {
    match p.intent
    case MovementIntent(_, _, _, _, at, _, _, _) => at.GetOr(p.now)
    case TransferIntent(_, _, _, _, at, _, _, _) => at.GetOr(p.now)
    case ReversalIntent(_, _) => p.now
  }

  /** Rejections before the transaction starts. */
  function Malformed(intent: Intent): Option<Error> {
    match intent
    case MovementIntent(kind, _, _, q, _, _, _, _) =>
      if kind in {Transfer, Reversal} then Some(InvalidOperation)
      else if q <= 0.0 then Some(InvalidQuantity) else None
    case TransferIntent(_, source, destination, q, _, _, _, _) =>
      if source == destination then Some(SameLocation)
      else if q <= 0.0 then Some(InvalidQuantity) else None
    case ReversalIntent(_, _) => None
  }

  /** The answer of the idempotency lookup, if it ends the request. */
  function Replay(s: State, p: Posting): Option<Outcome> {
    var k := FindKey(s.operations, p.key);
    if k == |s.operations| then None
    else if s.operations[k].actor != p.actor || s.operations[k].intent != p.intent
    then Some(Rejected(IdempotencyConflict))
    else Some(Posted(k, false))
  }

  /** Why stock cannot be posted for an item at some locations, if it cannot. */
  function StockRefusal(s: State, item: Id, locations: seq<Id>): Option<Error> {
    if item !in s.items then Some(NotFound)
    else if s.items[item].status != Active then Some(InactiveItem)
    else if s.items[item].baseUom.None? then Some(BaseUomRequired)
    else LocationRefusal(s, locations)
  }

  function LocationRefusal(s: State, locations: seq<Id>): Option<Error> {
    if exists l :: l in locations && l !in s.locations then Some(NotFound)
    else if exists l :: l in locations && !LocationIs(s, l, Active) then Some(InactiveLocation)
    else None
  }

  function MovementRefusal(s: State, p: Posting): Option<Error>
    requires p.intent.MovementIntent?
  {
    var i := p.intent;
    var refusal := StockRefusal(s, i.item, [i.location]);
    if refusal.Some? then refusal
    else if OccurredAt(p) > p.now then Some(FutureOccurredAt)
    else if i.kind == OpeningBalance && HasMovement(s.operations, At(i.item, i.location))
    then Some(OpeningBalanceExists)
    else if Outbound(i.kind) && Balance(s, i.item, i.location) < i.quantity then Some(InsufficientStock)
    else None
  }

  function TransferRefusal(s: State, p: Posting): Option<Error>
    requires p.intent.TransferIntent?
  {
    var i := p.intent;
    var refusal := StockRefusal(s, i.item, [i.source, i.destination]);
    if refusal.Some? then refusal
    else if OccurredAt(p) > p.now then Some(FutureOccurredAt)
    else if Balance(s, i.item, i.source) < i.quantity then Some(InsufficientStock)
    else None
  }

  /** Some position would go negative if the movements were taken back. */
  predicate Uncovered(s: State, movements: seq<Movement>) {
    exists m :: m in movements && Balance(s, m.item, m.location) - m.delta < 0.0
  }

  function LocationsOf(movements: seq<Movement>): (ids: seq<Id>)
    ensures |ids| == |movements|
    ensures forall j :: 0 <= j < |movements| ==> ids[j] == movements[j].location
  {
    seq(|movements|, j requires 0 <= j < |movements| => movements[j].location)
  }

  function ReversalRefusal(s: State, p: Posting): Option<Error>
    requires p.intent.ReversalIntent?
  {
    var k := p.intent.operation;
    if k >= |s.operations| then Some(NotFound)
    else if s.operations[k].kind == Reversal then Some(ReversalNotReversible)
    else
      var movements := s.operations[k].movements;
      if exists m :: m in movements && !ItemIs(s, m.item, Active) then Some(InactiveItem)
      else
        var refusal := LocationRefusal(s, LocationsOf(movements));
        if refusal.Some? then refusal
        else if IsReversed(s.operations, k) then Some(AlreadyReversed)
        else if Uncovered(s, movements) then Some(InsufficientStock)
        else None
  }

  function Refusal(s: State, p: Posting): Option<Outcome> {
    if Malformed(p.intent).Some? then Some(Rejected(Malformed(p.intent).value))
    else if Replay(s, p).Some? then Replay(s, p)
    else
      var refusal := match p.intent
        case MovementIntent(_, _, _, _, _, _, _, _) => MovementRefusal(s, p)
        case TransferIntent(_, _, _, _, _, _, _, _) => TransferRefusal(s, p)
        case ReversalIntent(_, _) => ReversalRefusal(s, p);
      if refusal.Some? then Some(Rejected(refusal.value)) else None
  }

  function Negated(movements: seq<Movement>): (r: seq<Movement>)
    ensures |r| == |movements|
  {
    seq(|movements|, j requires 0 <= j < |movements| => movements[j].(delta := -movements[j].delta))
  }

  /** The movements a posting inserts, ordered by location. */
  function MovementsOf(s: State, intent: Intent): seq<Movement> {
    match intent
    case MovementIntent(kind, item, location, q, _, _, _, _) =>
      [Movement(item, location, if Outbound(kind) then -q else q)]
    case TransferIntent(item, source, destination, q, _, _, _, _) =>
      if source <= destination
      then [Movement(item, source, -q), Movement(item, destination, q)]
      else [Movement(item, destination, q), Movement(item, source, -q)]
    case ReversalIntent(k, _) => if k < |s.operations| then Negated(s.operations[k].movements) else []
  }

  function OperationOf(s: State, p: Posting): Operation {
    Operation(
      KindOf(p.intent), p.actor, OccurredAt(p), p.now, p.key, p.intent,
      if p.intent.ReversalIntent? then Some(p.intent.operation) else None,
      MovementsOf(s, p.intent))
  }

  function ApplyPosting(s: State, p: Posting): (State, Outcome) {
    match Refusal(s, p)
    case Some(outcome) => (s, outcome)
    case None => (s.(operations := s.operations + [OperationOf(s, p)]), Posted(|s.operations|, true))
  }

  // ----- master data

  function ApplyItemUpdate(s: State, id: Id, expected: nat, description: Option<Id>, uom: Option<Option<Id>>)
    : (State, Outcome)
  {
    if id !in s.items then (s, Rejected(NotFound))
    else
      var item := s.items[id];
      if item.version != expected then (s, Rejected(VersionConflict))
      else if uom.Some? && item.baseUom != uom.value && HasMovement(s.operations, OfItem(id))
      then (s, Rejected(BaseUomLocked))
      else
        var saved := Item(description.GetOr(item.description), uom.GetOr(item.baseUom), item.status, item.version + 1);
        (s.(items := s.items[id := saved]), Saved)
  }

  function ApplyItemStatus(s: State, id: Id, expected: nat, status: RecordStatus): (State, Outcome) {
    if id !in s.items then (s, Rejected(NotFound))
    else if s.items[id].version != expected then (s, Rejected(VersionConflict))
    else if status == Archived && Total(s.operations, OfItem(id)) != 0.0 then (s, Rejected(StockRemaining))
    else (s.(items := s.items[id := s.items[id].(status := status, version := s.items[id].version + 1)]), Saved)
  }

  function ApplyLocationUpdate(s: State, id: Id, expected: nat, name: Id): (State, Outcome) {
    if id !in s.locations then (s, Rejected(NotFound))
    else if s.locations[id].version != expected then (s, Rejected(VersionConflict))
    else (s.(locations := s.locations[id := s.locations[id].(name := name, version := s.locations[id].version + 1)]),
          Saved)
  }

  function ApplyLocationStatus(s: State, id: Id, expected: nat, status: RecordStatus): (State, Outcome) {
    if id !in s.locations then (s, Rejected(NotFound))
    else if s.locations[id].version != expected then (s, Rejected(VersionConflict))
    else if status == Archived && Total(s.operations, OfLocation(id)) != 0.0 then (s, Rejected(StockRemaining))
    else
      var location := s.locations[id];
      (s.(locations := s.locations[id := location.(status := status, version := location.version + 1)]), Saved)
  }

  /** What one request does when nothing else runs: the new ledger and the answer. */
  function Apply(s: State, r: Request): (State, Outcome) {
    match r
    case CreateItem(id, description, uom) =>
      if id in s.items then (s, Rejected(DuplicateRecord))
      else (s.(items := s.items[id := Item(description, uom, Active, 1)]), Saved)
    case UpdateItem(id, expected, description, uom) => ApplyItemUpdate(s, id, expected, description, uom)
    case SetItemStatus(id, expected, status) => ApplyItemStatus(s, id, expected, status)
    case CreateLocation(id, name) =>
      if id in s.locations then (s, Rejected(DuplicateRecord))
      else (s.(locations := s.locations[id := Location(name, Active, 1)]), Saved)
    case UpdateLocation(id, expected, name) => ApplyLocationUpdate(s, id, expected, name)
    case SetLocationStatus(id, expected, status) => ApplyLocationStatus(s, id, expected, status)
    case Post(p) => ApplyPosting(s, p)
  }

  /** The ledger after serving requests one after another. */
  function Run(s: State, requests: seq<Request>): State {
    if requests == [] then s else Apply(Run(s, requests[..|requests| - 1]), requests[|requests| - 1]).0
  }
}
