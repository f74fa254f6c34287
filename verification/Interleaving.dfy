/** All interleavings of inventory transactions: they are linearizable and never deadlock. */
module Interleaving {
  import opened Prelude
  import opened Ledger
  import opened LedgerInvariants
  import opened Locking

  // ----- the locking discipline of a program

  /** The locks that guard what a check reads. */
  function Needs(s: State, r: Request, check: Check): set<LockName> {
    match r
    case Post(p) =>
      if check == KeyUnused then {KeyLock(p.key)}
      else if check == LocationsPostable then LocationGuards(s, p.intent)
      else if check in {ItemPostable, ItemsActive, NoHistory, Sufficient, NotReversed, ReversalCovered}
      then ItemGuards(s, p.intent)
      else {}
    case UpdateItem(id, _, _, _) => {ItemLock(id)}
    case SetItemStatus(id, _, _) => {ItemLock(id)}
    case UpdateLocation(id, _, _) => {LocationLock(id)}
    case SetLocationStatus(id, _, _) => {LocationLock(id)}
    case CreateItem(_, _, _) => {}
    case CreateLocation(_, _) => {}
  }

  function ItemGuards(s: State, intent: Intent): set<LockName> {
    set i | i in PostingItems(s, intent) :: ItemLock(i)
  }

  function LocationGuards(s: State, intent: Intent): set<LockName> {
    set l | l in PostingLocations(s, intent) :: LocationLock(l)
  }

  function LocksIn(steps: seq<Step>): set<LockName> {
    if steps == [] then {}
    else LocksIn(steps[..|steps| - 1]) + if steps[|steps| - 1].Acquire? then {steps[|steps| - 1].lock} else {}
  }

  /** Each lock lies above those already held, and each check's guards are already held. */
  ghost predicate Disciplined(s: State, r: Request, steps: seq<Step>) {
    forall m :: 0 <= m < |steps| ==>
      match steps[m]
      case Acquire(lock) => forall held :: held in LocksIn(steps[..m]) ==> Below(held, lock)
      case Verify(check) => Needs(s, r, check) <= LocksIn(steps[..m])
  }

  lemma LocksInSnoc(steps: seq<Step>, step: Step)
    ensures LocksIn(steps + [step]) == LocksIn(steps) + if step.Acquire? then {step.lock} else {}
  {
    assert (steps + [step])[..|steps|] == steps;
  }

  lemma DisciplinedSnoc(s: State, r: Request, steps: seq<Step>, step: Step)
    requires Disciplined(s, r, steps)
    requires match step
      case Acquire(lock) => forall held :: held in LocksIn(steps) ==> Below(held, lock)
      case Verify(check) => Needs(s, r, check) <= LocksIn(steps)
    ensures Disciplined(s, r, steps + [step])
  {
    forall m | 0 <= m < |steps| + 1 ensures (steps + [step])[..m] == steps[..m] {
    }
    assert steps[..|steps|] == steps;
  }

  /** Taking ascending locks, all above those held, keeps the discipline. */
  lemma {:induction false} DisciplinedLocks(
      s: State, r: Request, steps: seq<Step>, locks: seq<LockName>, all: seq<Step>)
    requires Disciplined(s, r, steps)
    requires |all| == |locks| && forall i :: 0 <= i < |all| ==> all[i] == Acquire(locks[i])
    requires forall held, i :: held in LocksIn(steps) && 0 <= i < |locks| ==> Below(held, locks[i])
    requires forall i, j :: 0 <= i < j < |locks| ==> Below(locks[i], locks[j])
    ensures Disciplined(s, r, steps + all)
    ensures forall lock :: lock in LocksIn(steps + all) <==> lock in LocksIn(steps) || lock in locks
  {
    if locks == [] {
      assert steps + all == steps;
    } else {
      var n := |locks| - 1;
      DisciplinedLocks(s, r, steps, locks[..n], all[..n]);
      assert steps + all == steps + all[..n] + [all[n]];
      LocksInSnoc(steps + all[..n], all[n]);
      DisciplinedSnoc(s, r, steps + all[..n], all[n]);
      assert locks == locks[..n] + [locks[n]];
    }
  }

  lemma DisciplinedItems(s: State, r: Request, steps: seq<Step>, ids: seq<Id>)
    requires Disciplined(s, r, steps)
    requires forall held :: held in LocksIn(steps) ==> held.KeyLock?
    requires forall i, j :: 0 <= i < j < |ids| ==> ids[i] < ids[j]
    ensures Disciplined(s, r, steps + ItemLocks(ids))
    ensures LocksIn(steps + ItemLocks(ids)) == LocksIn(steps) + set i | i in ids :: ItemLock(i)
  {
    var locks := seq(|ids|, i requires 0 <= i < |ids| => ItemLock(ids[i]));
    DisciplinedLocks(s, r, steps, locks, ItemLocks(ids));
    forall i | i in ids ensures ItemLock(i) in locks {
      var n :| 0 <= n < |ids| && ids[n] == i;
      assert locks[n] == ItemLock(i);
    }
  }

  lemma DisciplinedLocations(s: State, r: Request, steps: seq<Step>, ids: seq<Id>)
    requires Disciplined(s, r, steps)
    requires forall held :: held in LocksIn(steps) ==> !held.LocationLock?
    requires forall i, j :: 0 <= i < j < |ids| ==> ids[i] < ids[j]
    ensures Disciplined(s, r, steps + LocationLocks(ids))
    ensures LocksIn(steps + LocationLocks(ids)) == LocksIn(steps) + set i | i in ids :: LocationLock(i)
  {
    var locks := seq(|ids|, i requires 0 <= i < |ids| => LocationLock(ids[i]));
    DisciplinedLocks(s, r, steps, locks, LocationLocks(ids));
    forall i | i in ids ensures LocationLock(i) in locks {
      var n :| 0 <= n < |ids| && ids[n] == i;
      assert locks[n] == LocationLock(i);
    }
  }

  lemma OpeningDisciplined(s: State, p: Posting)
    ensures Disciplined(s, Post(p), Opening(p))
    ensures LocksIn(Opening(p)) == {KeyLock(p.key)}
  {
    var r := Post(p);
    var a, b := [Verify(IntentWellFormed)], [Verify(IntentWellFormed), Acquire(KeyLock(p.key))];
    assert a == [] + a && b == a + [Acquire(KeyLock(p.key))];
    LocksInSnoc([], Verify(IntentWellFormed));
    LocksInSnoc(a, Acquire(KeyLock(p.key)));
    DisciplinedSnoc(s, r, [], Verify(IntentWellFormed));
    DisciplinedSnoc(s, r, a, Acquire(KeyLock(p.key)));
    var c := b + [Verify(KeyUnused)];
    LocksInSnoc(b, Verify(KeyUnused));
    DisciplinedSnoc(s, r, b, Verify(KeyUnused));
    LocksInSnoc(c, Verify(OriginalReversible));
    DisciplinedSnoc(s, r, c, Verify(OriginalReversible));
    assert Opening(p) == c + [Verify(OriginalReversible)];
  }

  lemma {:induction false} DisciplinedChecks(s: State, r: Request, steps: seq<Step>, checks: seq<Check>, all: seq<Step>)
    requires Disciplined(s, r, steps)
    requires forall c :: c in checks ==> Needs(s, r, c) <= LocksIn(steps)
    requires |all| == |checks| && forall i :: 0 <= i < |all| ==> all[i] == Verify(checks[i])
    ensures Disciplined(s, r, steps + all) && LocksIn(steps + all) == LocksIn(steps)
  {
    if checks == [] {
      assert steps + all == steps;
    } else {
      var n := |checks| - 1;
      DisciplinedChecks(s, r, steps, checks[..n], all[..n]);
      assert steps + all == steps + all[..n] + [all[n]];
      assert checks[n] in checks;
      LocksInSnoc(steps + all[..n], all[n]);
      DisciplinedSnoc(s, r, steps + all[..n], all[n]);
    }
  }

  /** The locks on items and then locations, with the check between them. */
  lemma LocksDisciplined(s: State, p: Posting, items: seq<Id>, c: Check, locations: seq<Id>)
    requires c == if p.intent.ReversalIntent? then ItemsActive else ItemPostable
    requires forall i, j :: 0 <= i < j < |items| ==> items[i] < items[j]
    requires forall i, j :: 0 <= i < j < |locations| ==> locations[i] < locations[j]
    requires ItemGuards(s, p.intent) == set i | i in items :: ItemLock(i)
    ensures var all := Opening(p) + ItemLocks(items) + [Verify(c)] + LocationLocks(locations);
            && Disciplined(s, Post(p), all)
            && LocksIn(all)
               == {KeyLock(p.key)} + ItemGuards(s, p.intent) + set l | l in locations :: LocationLock(l)
  {
    var r := Post(p);
    OpeningDisciplined(s, p);
    DisciplinedItems(s, r, Opening(p), items);
    var a := Opening(p) + ItemLocks(items);
    assert LocksIn(a) == {KeyLock(p.key)} + ItemGuards(s, p.intent);
    DisciplinedChecks(s, r, a, [c], [Verify(c)]);
    DisciplinedLocations(s, r, a + [Verify(c)], locations);
  }

  lemma PostingDisciplined(s: State, p: Posting)
    ensures Disciplined(s, Post(p), PostingSteps(s, p))
    ensures Reversible(s, p.intent) ==>
      LocksIn(PostingSteps(s, p)) == {KeyLock(p.key)} + ItemGuards(s, p.intent) + LocationGuards(s, p.intent)
  {
    OpeningDisciplined(s, p);
    if Reversible(s, p.intent) {
      var items, locations := SortIds(PostingItems(s, p.intent)), SortIds(PostingLocations(s, p.intent));
      var c := if p.intent.ReversalIntent? then ItemsActive else ItemPostable;
      LocksDisciplined(s, p, items, c, locations);
      var all := Opening(p) + ItemLocks(items) + [Verify(c)] + LocationLocks(locations);
      assert LocksIn(all) == {KeyLock(p.key)} + ItemGuards(s, p.intent) + LocationGuards(s, p.intent);
      FinalDisciplined(s, p, all);
      assert PostingSteps(s, p) == all + FinalChecks(p);
    }
  }

  lemma {:induction false} FinalDisciplined(s: State, p: Posting, steps: seq<Step>)
    requires Disciplined(s, Post(p), steps)
    requires ItemGuards(s, p.intent) + LocationGuards(s, p.intent) <= LocksIn(steps)
    ensures Disciplined(s, Post(p), steps + FinalChecks(p))
    ensures LocksIn(steps + FinalChecks(p)) == LocksIn(steps)
  {
    if p.intent.ReversalIntent? {
      DisciplinedChecks(s, Post(p), steps, [LocationsPostable, NotReversed, ReversalCovered], FinalChecks(p));
    } else {
      DisciplinedChecks(s, Post(p), steps, [LocationsPostable, NotFuture, NoHistory, Sufficient], FinalChecks(p));
    }
  }

  /** Every request's program takes locks in ascending order and checks only what it guards. */
  lemma ProgramDisciplined(s: State, r: Request)
    ensures Disciplined(s, r, Steps(s, r))
  {
    match r
    case CreateItem(_, _, _) =>
    case CreateLocation(_, _) =>
    case Post(p) => PostingDisciplined(s, p);
    case UpdateItem(id, _, _, _) => LockThenChecks(s, r, ItemLock(id), [ItemVersion, UnitFree]);
    case SetItemStatus(id, _, _) => LockThenChecks(s, r, ItemLock(id), [ItemVersion, ItemEmptied]);
    case UpdateLocation(id, _, _) => LockThenChecks(s, r, LocationLock(id), [LocationVersion]);
    case SetLocationStatus(id, _, _) => LockThenChecks(s, r, LocationLock(id), [LocationVersion, LocationEmptied]);
  }

  lemma LockThenChecks(s: State, r: Request, lock: LockName, checks: seq<Check>)
    requires forall c :: c in checks ==> Needs(s, r, c) <= {lock}
    requires |Steps(s, r)| == |checks| + 1 && Steps(s, r)[0] == Acquire(lock)
    requires forall i :: 0 <= i < |checks| ==> Steps(s, r)[i + 1] == Verify(checks[i])
    ensures Disciplined(s, r, Steps(s, r))
    ensures LocksIn(Steps(s, r)) == {lock}
  {
    var first := [Acquire(lock)];
    assert first == [] + first;
    LocksInSnoc([], Acquire(lock));
    DisciplinedSnoc(s, r, [], Acquire(lock));
    DisciplinedChecks(s, r, first, checks, Steps(s, r)[1..]);
    assert Steps(s, r) == first + Steps(s, r)[1..];
  }

  // ----- what a set of locks protects

  /** Nothing guarded by the locks differs between two ledgers: guarded rows are unchanged, and no
      appended operation uses a guarded key, moves a guarded item or location, or reverses an
      operation on a guarded item. */
  ghost predicate Untouched(s: State, s': State, locks: set<LockName>) {
    && s.operations <= s'.operations
    && (forall i :: i in s.items && ItemLock(i) in locks ==> i in s'.items && s'.items[i] == s.items[i])
    && (forall l :: l in s.locations && LocationLock(l) in locks ==>
          l in s'.locations && s'.locations[l] == s.locations[l])
    && (forall k :: |s.operations| <= k < |s'.operations| ==> OutOfReach(s, s'.operations[k], locks))
  }

  ghost predicate OutOfReach(s: State, op: Operation, locks: set<LockName>) {
    && KeyLock(op.key) !in locks
    && (forall m :: m in op.movements ==> ItemLock(m.item) !in locks && LocationLock(m.location) !in locks)
    && (op.reverses.Some? ==>
          op.reverses.value < |s.operations|
          && forall m :: m in s.operations[op.reverses.value].movements ==> ItemLock(m.item) !in locks)
  }

  lemma NoNewMovement(s: State, s': State, locks: set<LockName>, scope: Scope)
    requires Untouched(s, s', locks) && |s'.operations| <= |s.operations| + 1
    requires match scope
      case At(item, _) => ItemLock(item) in locks
      case Along(axis, id) => (if axis == ItemAxis then ItemLock(id) else LocationLock(id)) in locks
      case Outside(_, _, _) => false
    ensures Total(s'.operations, scope) == Total(s.operations, scope)
    ensures HasMovement(s'.operations, scope) <==> HasMovement(s.operations, scope)
  {
    var n := |s.operations|;
    if |s'.operations| == n {
      assert s'.operations == s.operations;
    } else {
      var op := s'.operations[n];
      assert s'.operations == s.operations + [op];
      assert OutOfReach(s, op, locks);
      forall m | m in op.movements ensures !Covers(scope, m) {
      }
      TotalSnoc(s.operations, op, scope);
      NetUntouched(op.movements, scope);
      assert !Moves(op, scope);
      assert forall k :: 0 <= k < n ==> s'.operations[k] == s.operations[k];
    }
  }

  lemma {:induction false} UnusedKeyStays(operations: seq<Operation>, longer: seq<Operation>, key: Id)
    requires operations <= longer && FindKey(operations, key) == |operations|
    requires forall k :: |operations| <= k < |longer| ==> longer[k].key != key
    ensures FindKey(longer, key) == |longer|
  {
    assert forall k :: 0 <= k < |operations| ==> longer[k] == operations[k];
  }

  /** A guarded check that passed still passes after a change outside its guards. */
  lemma PostingVerdictStable(s: State, s': State, p: Posting, check: Check, locks: set<LockName>)
    requires Sound(s) && Untouched(s, s', locks) && |s'.operations| <= |s.operations| + 1
    requires Needs(s, Post(p), check) <= locks
    requires PostingVerdict(s, p, check).None? && Reversible(s, p.intent)
    ensures PostingVerdict(s', p, check).None?
  {
    var i := p.intent;
    assert OriginalMovements(s', i) == OriginalMovements(s, i);
    assert PostingItems(s', i) == PostingItems(s, i) && PostingLocations(s', i) == PostingLocations(s, i);
    match check
    case KeyUnused => UnusedKeyStays(s.operations, s'.operations, p.key);
    case ItemPostable => if !i.ReversalIntent? { assert ItemLock(i.item) in ItemGuards(s, i); }
    case ItemsActive => OriginalItemsActive(s, s', i, locks);
    case LocationsPostable => LocationsStay(s, s', i, locks);
    case NoHistory =>
      if i.MovementIntent? {
        assert ItemLock(i.item) in ItemGuards(s, i);
        NoNewMovement(s, s', locks, At(i.item, i.location));
      }
    case Sufficient =>
      if i.MovementIntent? {
        assert ItemLock(i.item) in ItemGuards(s, i);
        NoNewMovement(s, s', locks, At(i.item, i.location));
      } else if i.TransferIntent? {
        assert ItemLock(i.item) in ItemGuards(s, i);
        NoNewMovement(s, s', locks, At(i.item, i.source));
      }
    case NotReversed => if i.ReversalIntent? { StaysUnreversed(s, s', i.operation, locks); }
    case ReversalCovered => StaysCovered(s, s', i, locks);
    case _ =>
  }

  lemma OriginalItemsActive(s: State, s': State, i: Intent, locks: set<LockName>)
    requires Untouched(s, s', locks) && ItemsOf(OriginalMovements(s, i)) == ItemsOf(OriginalMovements(s', i))
    requires OriginalMovements(s', i) == OriginalMovements(s, i)
    requires i.ReversalIntent? ==> ItemGuards(s, i) <= locks
    requires forall m :: m in OriginalMovements(s, i) ==> ItemIs(s, m.item, Active)
    ensures forall m :: m in OriginalMovements(s', i) ==> ItemIs(s', m.item, Active)
  {
    forall m | m in OriginalMovements(s, i) ensures ItemIs(s', m.item, Active) {
      OriginalGuarded(s, i, m);
    }
  }

  lemma OriginalGuarded(s: State, i: Intent, m: Movement)
    requires m in OriginalMovements(s, i)
    ensures i.ReversalIntent? && ItemLock(m.item) in ItemGuards(s, i)
  {
    var j :| 0 <= j < |OriginalMovements(s, i)| && OriginalMovements(s, i)[j] == m;
    assert ItemsOf(OriginalMovements(s, i))[j] == m.item;
  }

  lemma LocationsStay(s: State, s': State, i: Intent, locks: set<LockName>)
    requires Untouched(s, s', locks) && PostingLocations(s', i) == PostingLocations(s, i)
    requires LocationGuards(s, i) <= locks && LocationRefusal(s, PostingLocations(s, i)).None?
    ensures LocationRefusal(s', PostingLocations(s', i)).None?
  {
    forall l | l in PostingLocations(s, i) ensures LocationIs(s', l, Active) {
      assert LocationLock(l) in LocationGuards(s, i);
      assert LocationIs(s, l, Active);
    }
  }

  lemma StaysUnreversed(s: State, s': State, k: nat, locks: set<LockName>)
    requires Sound(s) && Untouched(s, s', locks) && k < |s.operations| && s.operations[k].kind != Reversal
    requires forall m :: m in s.operations[k].movements ==> ItemLock(m.item) in locks
    requires !IsReversed(s.operations, k)
    ensures !IsReversed(s'.operations, k)
  {
    assert Proper(s.operations, k);
    assert s.operations[k].movements[0] in s.operations[k].movements;
    forall j | 0 <= j < |s'.operations| ensures s'.operations[j].reverses != Some(k) {
      if j < |s.operations| {
        assert s'.operations[j] == s.operations[j];
      } else {
        assert OutOfReach(s, s'.operations[j], locks);
      }
    }
  }

  lemma StaysCovered(s: State, s': State, i: Intent, locks: set<LockName>)
    requires Untouched(s, s', locks) && |s'.operations| <= |s.operations| + 1
    requires OriginalMovements(s', i) == OriginalMovements(s, i)
    requires ItemGuards(s, i) <= locks && !Uncovered(s, OriginalMovements(s, i))
    ensures !Uncovered(s', OriginalMovements(s', i))
  {
    forall m | m in OriginalMovements(s, i) ensures !(Balance(s', m.item, m.location) - m.delta < 0.0) {
      OriginalGuarded(s, i, m);
      NoNewMovement(s, s', locks, At(m.item, m.location));
      assert !(Balance(s, m.item, m.location) - m.delta < 0.0);
    }
  }

  lemma VerdictStable(s: State, s': State, r: Request, check: Check, locks: set<LockName>)
    requires Sound(s) && Untouched(s, s', locks) && |s'.operations| <= |s.operations| + 1
    requires Needs(s, r, check) <= locks && Verdict(s, r, check).None?
    requires r.Post? ==> Reversible(s, r.posting.intent) || check in {IntentWellFormed, KeyUnused, OriginalReversible}
    ensures Verdict(s', r, check).None?
  {
    match r
    case Post(p) =>
      if Reversible(s, p.intent) {
        PostingVerdictStable(s, s', p, check, locks);
      } else if check == KeyUnused {
        UnusedKeyStays(s.operations, s'.operations, p.key);
      }
    case UpdateItem(id, _, _, _) => NoNewMovement(s, s', locks, OfItem(id));
    case SetItemStatus(id, _, _) => NoNewMovement(s, s', locks, OfItem(id));
    case UpdateLocation(id, _, _) =>
    case SetLocationStatus(id, _, _) => NoNewMovement(s, s', locks, OfLocation(id));
    case CreateItem(_, _, _) =>
    case CreateLocation(_, _) =>
  }

  /** A commit writes only what its own locks guard. */
  lemma EffectGuarded(s: State, r: Request, locks: set<LockName>)
    requires Decide(s, r, Steps(s, r)).None? && LocksIn(Steps(s, r)) !! locks
    ensures Untouched(s, Effect(s, r).0, locks)
    ensures |Effect(s, r).0.operations| <= |s.operations| + 1
  {
    if r.Post? {
      PostingGuarded(s, r.posting, locks);
    } else {
      MasterGuarded(s, r, locks);
    }
  }

  lemma MasterGuarded(s: State, r: Request, locks: set<LockName>)
    requires !r.Post? && LocksIn(Steps(s, r)) !! locks && Decide(s, r, Steps(s, r)).None?
    ensures Untouched(s, Effect(s, r).0, locks)
  {
    match r
    case CreateItem(_, _, _) =>
    case CreateLocation(_, _) =>
    case UpdateItem(id, _, _, _) => LockThenChecks(s, r, ItemLock(id), [ItemVersion, UnitFree]);
    case SetItemStatus(id, _, _) => LockThenChecks(s, r, ItemLock(id), [ItemVersion, ItemEmptied]);
    case UpdateLocation(id, _, _) => LockThenChecks(s, r, LocationLock(id), [LocationVersion]);
    case SetLocationStatus(id, _, _) => LockThenChecks(s, r, LocationLock(id), [LocationVersion, LocationEmptied]);
  }

  lemma PostingGuarded(s: State, p: Posting, locks: set<LockName>)
    requires Decide(s, Post(p), PostingSteps(s, p)).None? && LocksIn(PostingSteps(s, p)) !! locks
    ensures Untouched(s, Effect(s, Post(p)).0, locks)
  {
    PostingDecides(s, p);
    assert Reversible(s, p.intent);
    PostingDisciplined(s, p);
    var op := OperationOf(s, p);
    forall m | m in op.movements ensures ItemLock(m.item) !in locks && LocationLock(m.location) !in locks {
      MovementGuarded(s, p.intent, m);
      assert ItemLock(m.item) in LocksIn(PostingSteps(s, p));
      assert LocationLock(m.location) in LocksIn(PostingSteps(s, p));
    }
    assert KeyLock(op.key) in LocksIn(PostingSteps(s, p));
    if op.reverses.Some? {
      forall m | m in s.operations[op.reverses.value].movements ensures ItemLock(m.item) !in locks {
        OriginalGuarded(s, p.intent, m);
        assert ItemLock(m.item) in LocksIn(PostingSteps(s, p));
      }
    }
    assert OutOfReach(s, op, locks);
  }

  lemma MovementGuarded(s: State, i: Intent, m: Movement)
    requires m in MovementsOf(s, i)
    ensures ItemLock(m.item) in ItemGuards(s, i) && LocationLock(m.location) in LocationGuards(s, i)
  {
    if i.ReversalIntent? {
      var original := OriginalMovements(s, i);
      var j :| 0 <= j < |original| && Negated(original)[j] == m;
      assert ItemsOf(original)[j] == m.item && LocationsOf(original)[j] == m.location;
    }
    assert m.item in PostingItems(s, i) && m.location in PostingLocations(s, i);
  }

  // ----- the system

  type TxId = int

  datatype Phase = Running | Answered(outcome: Outcome) | Aborted

  datatype Tx = Tx(request: Request, pc: nat, held: set<LockName>, phase: Phase)

  datatype System = System(ledger: State, txs: map<TxId, Tx>)

  /** Anyone may start a request; a running transaction advances by one step unless it waits for a
      lock; and it may be aborted at any point. */
  datatype Event = Begin(tx: TxId, request: Request) | Advance(tx: TxId) | Abort(tx: TxId)

  const START: System := System(EMPTY, map[])

  predicate IsRunning(sys: System, t: TxId) {
    t in sys.txs && sys.txs[t].phase.Running?
  }

  predicate Free(sys: System, t: TxId, lock: LockName) {
    forall u :: u in sys.txs && u != t ==> lock !in sys.txs[u].held
  }

  /** A finished transaction holds nothing. */
  function Finish(tx: Tx, phase: Phase): Tx {
    tx.(held := {}, phase := phase)
  }

  function AdvanceTx(sys: System, t: TxId): System
    requires IsRunning(sys, t)
  {
    var tx := sys.txs[t];
    var steps := Steps(sys.ledger, tx.request);
    if tx.pc >= |steps| then
      var (ledger, outcome) := Effect(sys.ledger, tx.request);
      System(ledger, sys.txs[t := Finish(tx, Answered(outcome))])
    else match steps[tx.pc]
      case Acquire(lock) =>
        if Free(sys, t, lock) then sys.(txs := sys.txs[t := tx.(pc := tx.pc + 1, held := tx.held + {lock})])
        else sys
      case Verify(check) =>
        match Verdict(sys.ledger, tx.request, check)
        case None => sys.(txs := sys.txs[t := tx.(pc := tx.pc + 1)])
        case Some(outcome) => sys.(txs := sys.txs[t := Finish(tx, Answered(outcome))])
  }

  function Perform(sys: System, e: Event): System {
    match e
    case Begin(t, r) => if t in sys.txs then sys else sys.(txs := sys.txs[t := Tx(r, 0, {}, Running)])
    case Advance(t) => if IsRunning(sys, t) then AdvanceTx(sys, t) else sys
    case Abort(t) => if IsRunning(sys, t) then sys.(txs := sys.txs[t := Finish(sys.txs[t], Aborted)]) else sys
  }

  /** Any list of events is an interleaving; events that cannot happen change nothing. */
  function Execute(events: seq<Event>): System {
    if events == [] then START else Perform(Execute(events[..|events| - 1]), events[|events| - 1])
  }

  // ----- the invariant of the system

  /** The first pc steps were taken: their locks are held and their checks would pass now. */
  ghost predicate UpTo(s: State, r: Request, steps: seq<Step>, pc: nat, held: set<LockName>) {
    && pc <= |steps|
    && held == LocksIn(steps[..pc])
    && forall m :: 0 <= m < pc && steps[m].Verify? ==> Verdict(s, r, steps[m].check).None?
  }

  /** A running transaction holds exactly the locks it has acquired, and every check it has passed
      would still pass now. */
  ghost predicate Consistent(s: State, tx: Tx) {
    if tx.phase.Running? then UpTo(s, tx.request, Steps(s, tx.request), tx.pc, tx.held)
    else tx.held == {}
  }

  ghost predicate Inv(sys: System) {
    && Sound(sys.ledger)
    && (forall t :: t in sys.txs ==> Consistent(sys.ledger, sys.txs[t]))
    && (forall t, u :: t in sys.txs && u in sys.txs && t != u ==> sys.txs[t].held !! sys.txs[u].held)
  }

  lemma {:induction false} PassedDecides(s: State, r: Request, steps: seq<Step>)
    requires forall m :: 0 <= m < |steps| && steps[m].Verify? ==> Verdict(s, r, steps[m].check).None?
    ensures Decide(s, r, steps).None?
  {
    if steps != [] {
      PassedDecides(s, r, steps[1..]);
    }
  }

  /** How far a transaction got does not change when others append operations. */
  lemma StepsStable(s: State, s': State, tx: Tx)
    requires s.operations <= s'.operations && tx.phase.Running? && Consistent(s, tx)
    ensures tx.pc <= |Steps(s', tx.request)|
    ensures Steps(s', tx.request)[..tx.pc] == Steps(s, tx.request)[..tx.pc]
    ensures tx.request.Post? && !Reversible(s, tx.request.posting.intent) ==>
      forall m :: 0 <= m < tx.pc && Steps(s, tx.request)[m].Verify? ==>
        Steps(s, tx.request)[m].check in {IntentWellFormed, KeyUnused, OriginalReversible}
  {
    if tx.request.Post? {
      var p := tx.request.posting;
      if p.intent.ReversalIntent? && p.intent.operation >= |s.operations| {
        var steps := Steps(s, tx.request);
        assert steps == Opening(p);
        assert steps[3] == Verify(OriginalReversible);
        assert tx.pc <= 3;
        assert Steps(s', tx.request)[..4] == Opening(p);
        assert Steps(s', tx.request)[..tx.pc] == Opening(p)[..tx.pc];
      } else {
        assert Reversible(s', p.intent) == Reversible(s, p.intent);
        assert OriginalMovements(s', p.intent) == OriginalMovements(s, p.intent);
        assert Steps(s', tx.request) == Steps(s, tx.request);
      }
    }
  }

  /** A check that a running transaction has passed would still pass. */
  lemma PassedStays(s: State, s': State, tx: Tx, m: nat)
    requires Sound(s) && Consistent(s, tx) && tx.phase.Running?
    requires Untouched(s, s', tx.held) && |s'.operations| <= |s.operations| + 1
    requires m < tx.pc && Steps(s, tx.request)[m].Verify?
    ensures Verdict(s', tx.request, Steps(s, tx.request)[m].check).None?
  {
    var r, steps := tx.request, Steps(s, tx.request);
    StepsStable(s, s', tx);
    ProgramDisciplined(s, r);
    LocksGrow(steps, m, tx.pc);
    VerdictStable(s, s', r, steps[m].check, tx.held);
  }

  /** A transaction is unaffected by a commit outside the locks it holds. */
  lemma ConsistentStable(s: State, s': State, tx: Tx)
    requires Sound(s) && Consistent(s, tx)
    requires Untouched(s, s', tx.held) && |s'.operations| <= |s.operations| + 1
    ensures Consistent(s', tx)
  {
    if tx.phase.Running? {
      var now, before := Steps(s', tx.request), Steps(s, tx.request);
      StepsStable(s, s', tx);
      forall m | 0 <= m < tx.pc && now[m].Verify? ensures Verdict(s', tx.request, now[m].check).None? {
        assert now[m] == now[..tx.pc][m] == before[..tx.pc][m] == before[m];
        PassedStays(s, s', tx, m);
      }
    }
  }

  lemma {:induction false} LocksGrow(steps: seq<Step>, m: nat, n: nat)
    requires m <= n <= |steps|
    ensures LocksIn(steps[..m]) <= LocksIn(steps[..n])
  {
    if m < n {
      LocksGrow(steps, m, n - 1);
      assert steps[..n] == steps[..n - 1] + [steps[n - 1]];
      LocksInSnoc(steps[..n - 1], steps[n - 1]);
    }
  }
}
