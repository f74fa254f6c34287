/** Main results about concurrent inventory transactions: every interleaving is linearizable,
    locks protect what a transaction has checked, and no deadlock is reachable. */
module Linearizability {
  import opened Prelude
  import opened Ledger
  import opened LedgerInvariants
  import opened Locking
  import opened Interleaving

  /** The request an event answers, and its answer. */
  function AnswerOf(sys: System, e: Event): Option<(Request, Outcome)> {
    if e.Advance? && IsRunning(sys, e.tx) && Perform(sys, e).txs[e.tx].phase.Answered?
    then Some((sys.txs[e.tx].request, Perform(sys, e).txs[e.tx].phase.outcome))
    else None
  }

  /** The requests answered by a list of events, in order, with their answers. */
  function Log(events: seq<Event>): seq<(Request, Outcome)> {
    if events == [] then []
    else
      var n := |events| - 1;
      Log(events[..n])
      + match AnswerOf(Execute(events[..n]), events[n]) case Some(a) => [a] case None => []
  }

  function RequestsOf(log: seq<(Request, Outcome)>): (requests: seq<Request>)
    ensures |requests| == |log|
    ensures forall i :: 0 <= i < |log| ==> requests[i] == log[i].0
  {
    seq(|log|, i requires 0 <= i < |log| => log[i].0)
  }

  // ----- one event

  /** A transaction whose checks all passed commits exactly what the atomic request would do. */
  lemma {:induction false} CommitIsApply(sys: System, t: TxId)
    requires Inv(sys) && IsRunning(sys, t) && sys.txs[t].pc >= |Steps(sys.ledger, sys.txs[t].request)|
    ensures Effect(sys.ledger, sys.txs[t].request) == Apply(sys.ledger, sys.txs[t].request)
    ensures Decide(sys.ledger, sys.txs[t].request, Steps(sys.ledger, sys.txs[t].request)).None?
    ensures sys.txs[t].held == LocksIn(Steps(sys.ledger, sys.txs[t].request))
  {
    var tx := sys.txs[t];
    var steps := Steps(sys.ledger, tx.request);
    assert Consistent(sys.ledger, tx);
    assert steps[..tx.pc] == steps;
    PassedDecides(sys.ledger, tx.request, steps);
    ProgramIsApply(sys.ledger, tx.request);
  }

  /** A check that ends a request answers what the atomic request would answer. */
  lemma {:induction false} StopIsApply(sys: System, t: TxId, check: Check)
    requires Inv(sys) && IsRunning(sys, t)
    requires sys.txs[t].pc < |Steps(sys.ledger, sys.txs[t].request)|
    requires Steps(sys.ledger, sys.txs[t].request)[sys.txs[t].pc] == Verify(check)
    requires Verdict(sys.ledger, sys.txs[t].request, check).Some?
    ensures Apply(sys.ledger, sys.txs[t].request)
         == (sys.ledger, Verdict(sys.ledger, sys.txs[t].request, check).value)
  {
    var s, tx := sys.ledger, sys.txs[t];
    var steps := Steps(s, tx.request);
    assert Consistent(s, tx);
    PassedDecides(s, tx.request, steps[..tx.pc]);
    assert steps == steps[..tx.pc] + steps[tx.pc..];
    DecideConcat(s, tx.request, steps[..tx.pc], steps[tx.pc..]);
    assert steps[tx.pc..][0] == Verify(check);
    ProgramIsApply(s, tx.request);
  }

  /** Every answer is the atomic one at that moment; every other event leaves the ledger alone. */
  lemma {:induction false} EventRefines(sys: System, e: Event)
    requires Inv(sys)
    ensures match AnswerOf(sys, e)
      case Some(a) => Apply(sys.ledger, a.0) == (Perform(sys, e).ledger, a.1)
      case None => Perform(sys, e).ledger == sys.ledger
  {
    if e.Advance? && IsRunning(sys, e.tx) {
      var tx := sys.txs[e.tx];
      var steps := Steps(sys.ledger, tx.request);
      if tx.pc >= |steps| {
        CommitIsApply(sys, e.tx);
      } else if steps[tx.pc].Verify? && Verdict(sys.ledger, tx.request, steps[tx.pc].check).Some? {
        StopIsApply(sys, e.tx, steps[tx.pc].check);
      }
    }
  }

  /** What a transaction holds, no other transaction's event can disturb. */
  lemma {:induction false} LocksProtect(sys: System, e: Event, t: TxId)
    requires Inv(sys) && t in sys.txs && e.tx != t
    ensures Untouched(sys.ledger, Perform(sys, e).ledger, sys.txs[t].held)
    ensures |Perform(sys, e).ledger.operations| <= |sys.ledger.operations| + 1
    ensures t in Perform(sys, e).txs && Perform(sys, e).txs[t] == sys.txs[t]
  {
    if e.Advance? && IsRunning(sys, e.tx) && sys.txs[e.tx].pc >= |Steps(sys.ledger, sys.txs[e.tx].request)| {
      CommitIsApply(sys, e.tx);
      EffectGuarded(sys.ledger, sys.txs[e.tx].request, sys.txs[t].held);
    }
  }

  lemma OneStepFurther(s: State, r: Request, steps: seq<Step>, pc: nat, held: set<LockName>, held': set<LockName>)
    requires UpTo(s, r, steps, pc, held) && pc < |steps|
    requires match steps[pc]
      case Acquire(lock) => held' == held + {lock}
      case Verify(check) => held' == held && Verdict(s, r, check).None?
    ensures UpTo(s, r, steps, pc + 1, held')
  {
    assert steps[..pc + 1] == steps[..pc] + [steps[pc]];
    LocksInSnoc(steps[..pc], steps[pc]);
  }

  lemma OwnStepConsistent(sys: System, e: Event)
    requires Inv(sys) && e.tx in Perform(sys, e).txs
    ensures Consistent(Perform(sys, e).ledger, Perform(sys, e).txs[e.tx])
  {
    if e.tx in sys.txs {
      assert Consistent(sys.ledger, sys.txs[e.tx]);
    }
    if e.Advance? && IsRunning(sys, e.tx) {
      AdvanceConsistent(sys, e.tx);
    } else if e.Begin? && e.tx !in sys.txs {
      assert Steps(sys.ledger, e.request)[..0] == [];
    }
  }

  lemma {:induction false} AdvanceConsistent(sys: System, t: TxId)
    requires IsRunning(sys, t) && Consistent(sys.ledger, sys.txs[t])
    ensures Consistent(AdvanceTx(sys, t).ledger, AdvanceTx(sys, t).txs[t])
  {
    var tx := sys.txs[t];
    var steps := Steps(sys.ledger, tx.request);
    if tx.pc < |steps| {
      match steps[tx.pc]
      case Acquire(lock) =>
        if Free(sys, t, lock) {
          OneStepFurther(sys.ledger, tx.request, steps, tx.pc, tx.held, tx.held + {lock});
        }
      case Verify(check) =>
        if Verdict(sys.ledger, tx.request, check).None? {
          OneStepFurther(sys.ledger, tx.request, steps, tx.pc, tx.held, tx.held);
        }
    }
  }

  lemma HeldStaysDisjoint(sys: System, e: Event, u: TxId)
    requires Inv(sys) && u in sys.txs && u != e.tx && e.tx in Perform(sys, e).txs
    ensures Perform(sys, e).txs[e.tx].held !! sys.txs[u].held
  {
    if e.Advance? && IsRunning(sys, e.tx) {
      var tx := sys.txs[e.tx];
      var steps := Steps(sys.ledger, tx.request);
      if tx.pc < |steps| && steps[tx.pc].Acquire? && Free(sys, e.tx, steps[tx.pc].lock) {
        assert steps[tx.pc].lock !in sys.txs[u].held;
      }
    }
  }

  /** The system invariant is kept by every event. */
  lemma EventKeepsInv(sys: System, e: Event)
    requires Inv(sys)
    ensures Inv(Perform(sys, e))
  {
    var after := Perform(sys, e);
    EventRefines(sys, e);
    if AnswerOf(sys, e).Some? {
      ApplySound(sys.ledger, AnswerOf(sys, e).value.0);
    }
    forall t | t in after.txs ensures Consistent(after.ledger, after.txs[t]) {
      if t == e.tx {
        OwnStepConsistent(sys, e);
      } else {
        LocksProtect(sys, e, t);
        ConsistentStable(sys.ledger, after.ledger, sys.txs[t]);
      }
    }
    forall t, u | t in after.txs && u in after.txs && t != u ensures after.txs[t].held !! after.txs[u].held {
      if t == e.tx {
        LocksProtect(sys, e, u);
        HeldStaysDisjoint(sys, e, u);
      } else if u == e.tx {
        LocksProtect(sys, e, t);
        HeldStaysDisjoint(sys, e, t);
      } else {
        LocksProtect(sys, e, t);
        LocksProtect(sys, e, u);
      }
    }
  }

  // ----- all interleavings

  lemma {:induction false} ExecuteInv(events: seq<Event>)
    ensures Inv(Execute(events))
  {
    if events == [] {
      EmptySound();
    } else {
      ExecuteInv(events[..|events| - 1]);
      EventKeepsInv(Execute(events[..|events| - 1]), events[|events| - 1]);
    }
  }

  /** Serving the logged requests one at a time gives the ledger and the logged answers. */
  ghost predicate Explains(log: seq<(Request, Outcome)>, ledger: State) {
    && ledger == Run(EMPTY, RequestsOf(log))
    && forall i :: 0 <= i < |log| ==> log[i].1 == Apply(Run(EMPTY, RequestsOf(log)[..i]), log[i].0).1
  }

  lemma {:induction false} ExplainsMore(
      log: seq<(Request, Outcome)>, ledger: State, a: (Request, Outcome), after: State)
    requires Explains(log, ledger) && Apply(ledger, a.0) == (after, a.1)
    ensures Explains(log + [a], after)
  {
    var requests, all := RequestsOf(log), RequestsOf(log + [a]);
    assert all[..|log|] == requests && all[|log|] == a.0;
    forall i | 0 <= i < |log + [a]| ensures (log + [a])[i].1 == Apply(Run(EMPTY, all[..i]), (log + [a])[i].0).1 {
      if i < |log| {
        assert all[..i] == requests[..i];
      }
    }
  }

  /** Every interleaving is equivalent to serving its answered requests one at a time, in the order
      they were answered: the committed ledger is the same, and so is every answer. */
  lemma {:induction false} Linearizable(events: seq<Event>)
    ensures Explains(Log(events), Execute(events).ledger)
  {
    if events != [] {
      var n := |events| - 1;
      var sys := Execute(events[..n]);
      Linearizable(events[..n]);
      ExecuteInv(events[..n]);
      EventRefines(sys, events[n]);
      match AnswerOf(sys, events[n])
      case None => assert Log(events) == Log(events[..n]);
      case Some(a) => ExplainsMore(Log(events[..n]), sys.ledger, a, Execute(events).ledger);
    }
  }

  /** In every interleaving, at every moment, no position is negative and everything archived is
      empty. */
  lemma {:induction false} InterleavingsAreSound(events: seq<Event>, item: Id, location: Id)
    ensures Balance(Execute(events).ledger, item, location) >= 0.0
    ensures ItemIs(Execute(events).ledger, item, Archived) || LocationIs(Execute(events).ledger, location, Archived)
      ==> Balance(Execute(events).ledger, item, location) == 0.0
  {
    ExecuteInv(events);
    assert Total(Execute(events).ledger.operations, At(item, location)) >= 0.0;
  }

  /** At every moment every check that a running transaction has passed would still pass. */
  lemma {:induction false} PassedChecksStand(events: seq<Event>, t: TxId, m: nat)
    requires IsRunning(Execute(events), t)
    requires var tx := Execute(events).txs[t]; m < tx.pc && m < |Steps(Execute(events).ledger, tx.request)|
    requires Steps(Execute(events).ledger, Execute(events).txs[t].request)[m].Verify?
    ensures var sys := Execute(events);
            Verdict(sys.ledger, sys.txs[t].request, Steps(sys.ledger, sys.txs[t].request)[m].check).None?
  {
    ExecuteInv(events);
    assert Consistent(Execute(events).ledger, Execute(events).txs[t]);
  }

  // ----- from a balance check to the commit

  /** The checks of a posting that read a position's balance or history. */
  predicate ReadsPosition(check: Check) {
    check in {NoHistory, Sufficient, ReversalCovered}
  }

  /** A running posting that moves the item and has passed a check of its position. */
  ghost predicate HasChecked(sys: System, t: TxId, item: Id) {
    && IsRunning(sys, t) && sys.txs[t].request.Post?
    && item in PostingItems(sys.ledger, sys.txs[t].request.posting.intent)
    && exists m :: PassedPosition(sys, t, m)
  }

  ghost predicate PassedPosition(sys: System, t: TxId, m: nat)
    requires IsRunning(sys, t)
  {
    var steps := Steps(sys.ledger, sys.txs[t].request);
    m < sys.txs[t].pc && m < |steps| && steps[m].Verify? && ReadsPosition(steps[m].check)
  }

  lemma PositionNeedsItem(s: State, p: Posting, check: Check, item: Id)
    requires ReadsPosition(check) && item in PostingItems(s, p.intent)
    ensures ItemLock(item) in Needs(s, Post(p), check)
  {
  }

  /** What a passed check needs is held. */
  lemma NeedsAreHeld(sys: System, t: TxId, m: nat)
    requires Inv(sys) && IsRunning(sys, t)
    requires m < sys.txs[t].pc && m < |Steps(sys.ledger, sys.txs[t].request)|
    requires Steps(sys.ledger, sys.txs[t].request)[m].Verify?
    ensures Needs(sys.ledger, sys.txs[t].request, Steps(sys.ledger, sys.txs[t].request)[m].check) <= sys.txs[t].held
  {
    var tx := sys.txs[t];
    var steps := Steps(sys.ledger, tx.request);
    assert Consistent(sys.ledger, tx);
    ProgramDisciplined(sys.ledger, tx.request);
    LocksGrow(steps, m, tx.pc);
  }

  /** Such a posting holds the lock on the item. */
  lemma CheckedHoldsItem(sys: System, t: TxId, item: Id)
    requires Inv(sys) && HasChecked(sys, t, item)
    ensures ItemLock(item) in sys.txs[t].held
  {
    var m: nat :| PassedPosition(sys, t, m);
    NeedsAreHeld(sys, t, m);
    PositionNeedsItem(
      sys.ledger, sys.txs[t].request.posting, Steps(sys.ledger, sys.txs[t].request)[m].check, item);
  }

  /** One event of another transaction, or of this one while it goes on running. */
  lemma {:induction false} EventKeepsPosition(sys: System, e: Event, t: TxId, item: Id, location: Id)
    requires Inv(sys) && t in sys.txs && IsRunning(Perform(sys, e), t)
    ensures IsRunning(sys, t) && sys.txs[t].held <= Perform(sys, e).txs[t].held
    ensures ItemLock(item) in sys.txs[t].held ==>
      && Balance(Perform(sys, e).ledger, item, location) == Balance(sys.ledger, item, location)
      && (HasMovement(Perform(sys, e).ledger.operations, At(item, location))
          <==> HasMovement(sys.ledger.operations, At(item, location)))
  {
    if e.tx == t {
      OwnStepKeepsLedger(sys, e, t);
    } else {
      LocksProtect(sys, e, t);
      if ItemLock(item) in sys.txs[t].held {
        NoNewMovement(sys.ledger, Perform(sys, e).ledger, sys.txs[t].held, At(item, location));
      }
    }
  }

  /** A transaction writes only by the event that ends it. */
  lemma OwnStepKeepsLedger(sys: System, e: Event, t: TxId)
    requires e.tx == t && t in sys.txs && IsRunning(Perform(sys, e), t)
    ensures IsRunning(sys, t) && Perform(sys, e).ledger == sys.ledger
    ensures sys.txs[t].held <= Perform(sys, e).txs[t].held
  {
  }

  /** While t runs, nothing moves at the positions of an item whose lock it held after n events. */
  lemma {:induction false} LockedPositionFrozen(events: seq<Event>, n: nat, t: TxId, item: Id, location: Id)
    requires n <= |events| && IsRunning(Execute(events[..n]), t) && IsRunning(Execute(events), t)
    requires ItemLock(item) in Execute(events[..n]).txs[t].held
    ensures ItemLock(item) in Execute(events).txs[t].held
    ensures Balance(Execute(events).ledger, item, location) == Balance(Execute(events[..n]).ledger, item, location)
    ensures HasMovement(Execute(events).ledger.operations, At(item, location))
       <==> HasMovement(Execute(events[..n]).ledger.operations, At(item, location))
  {
    if n == |events| {
      assert events[..n] == events;
    } else {
      var k := |events| - 1;
      assert events[..k][..n] == events[..n];
      TransactionsStay(events[..k], n, t);
      ExecuteInv(events[..k]);
      EventKeepsPosition(Execute(events[..k]), events[k], t, item, location);
      LockedPositionFrozen(events[..k], n, t, item, location);
    }
  }

  lemma {:induction false} TransactionsStay(events: seq<Event>, n: nat, t: TxId)
    requires n <= |events| && t in Execute(events[..n]).txs
    ensures t in Execute(events).txs
  {
    if n == |events| {
      assert events[..n] == events;
    } else {
      assert events[..|events| - 1][..n] == events[..n];
      TransactionsStay(events[..|events| - 1], n, t);
    }
  }

  /** In every interleaving: from the moment a posting has passed a check of a balance or a history
      until it commits, whatever happens in between, it holds the item's lock and no balance and no
      history of that item changes. */
  lemma {:induction false} PositionFrozen(events: seq<Event>, n: nat, t: TxId, item: Id, location: Id)
    requires n <= |events| && HasChecked(Execute(events[..n]), t, item) && IsRunning(Execute(events), t)
    ensures ItemLock(item) in Execute(events).txs[t].held
    ensures Balance(Execute(events).ledger, item, location) == Balance(Execute(events[..n]).ledger, item, location)
    ensures HasMovement(Execute(events).ledger.operations, At(item, location))
       <==> HasMovement(Execute(events[..n]).ledger.operations, At(item, location))
  {
    ExecuteInv(events[..n]);
    CheckedHoldsItem(Execute(events[..n]), t, item);
    LockedPositionFrozen(events, n, t, item, location);
  }

  // ----- deadlock

  /** The lock a running transaction wants next, if its next step is a lock. */
  function Wanted(sys: System, t: TxId): Option<LockName>
    requires t in sys.txs
  {
    var tx := sys.txs[t];
    var steps := Steps(sys.ledger, tx.request);
    if tx.phase.Running? && tx.pc < |steps| && steps[tx.pc].Acquire? then Some(steps[tx.pc].lock) else None
  }

  /** t cannot move because u holds the lock it wants. */
  ghost predicate WaitsFor(sys: System, t: TxId, u: TxId) {
    t in sys.txs && u in sys.txs && t != u && Wanted(sys, t).Some? && Wanted(sys, t).value in sys.txs[u].held
  }

  ghost predicate WaitsIn(sys: System, t: TxId, group: set<TxId>) {
    exists u :: u in group && WaitsFor(sys, t, u)
  }

  /** Every transaction of the group waits for another one of it. */
  ghost predicate Deadlocked(sys: System, group: set<TxId>) {
    group != {} && forall t :: t in group ==> WaitsIn(sys, t, group)
  }

  /** A transaction wants only locks above all those it holds. */
  lemma WantsAbove(sys: System, t: TxId, held: LockName)
    requires Inv(sys) && t in sys.txs && Wanted(sys, t).Some? && held in sys.txs[t].held
    ensures Below(held, Wanted(sys, t).value)
  {
    assert Consistent(sys.ledger, sys.txs[t]);
    ProgramDisciplined(sys.ledger, sys.txs[t].request);
  }

  /** Among transactions that all want a lock, one wants a highest lock. */
  lemma {:induction false} HighestWanted(sys: System, group: set<TxId>) returns (t: TxId)
    requires group != {} && forall u :: u in group ==> u in sys.txs && Wanted(sys, u).Some?
    ensures t in group && forall u :: u in group ==> !Below(Wanted(sys, t).value, Wanted(sys, u).value)
    decreases |group|
  {
    t := Pick(group);
    var rest := group - {t};
    if rest != {} {
      var v := HighestWanted(sys, rest);
      if Below(Wanted(sys, t).value, Wanted(sys, v).value) {
        t := v;
      }
    }
  }

  /** What a transaction waiting for the highest wanted lock waits for wants a higher one. */
  lemma {:induction false} NobodyWaitsForHighest(sys: System, group: set<TxId>, t: TxId)
    requires Inv(sys) && t in group
    requires forall u :: u in group ==> u in sys.txs && Wanted(sys, u).Some?
    requires forall u :: u in group ==> !Below(Wanted(sys, t).value, Wanted(sys, u).value)
    ensures !WaitsIn(sys, t, group)
  {
    forall u | u in group ensures !WaitsFor(sys, t, u) {
      if WaitsFor(sys, t, u) {
        WantsAbove(sys, u, Wanted(sys, t).value);
      }
    }
  }

  lemma LockOrderPreventsDeadlock(sys: System, group: set<TxId>)
    requires Inv(sys)
    ensures !Deadlocked(sys, group)
  {
    if group != {} && forall t :: t in group ==> t in sys.txs && Wanted(sys, t).Some? {
      var t := HighestWanted(sys, group);
      NobodyWaitsForHighest(sys, group, t);
    } else if group != {} {
      var t :| t in group && !(t in sys.txs && Wanted(sys, t).Some?);
      assert !WaitsIn(sys, t, group);
    }
  }

  /** No deadlock is reachable, in any interleaving of any requests. */
  lemma NoDeadlock(events: seq<Event>, group: set<TxId>)
    ensures !Deadlocked(Execute(events), group)
  {
    ExecuteInv(events);
    LockOrderPreventsDeadlock(Execute(events), group);
  }

  /** The transactions that cannot take their next step are exactly those waiting for another. */
  lemma BlockedMeansWaiting(sys: System, t: TxId)
    requires Inv(sys) && IsRunning(sys, t)
    ensures Perform(sys, Advance(t)) == sys <==> exists u :: u in sys.txs && WaitsFor(sys, t, u)
  {
    var tx := sys.txs[t];
    var steps := Steps(sys.ledger, tx.request);
    assert sys.txs[t] == tx;
    if tx.pc < |steps| && steps[tx.pc].Acquire? {
      var lock := steps[tx.pc].lock;
      if !Free(sys, t, lock) {
        var u :| u in sys.txs && u != t && lock in sys.txs[u].held;
        assert WaitsFor(sys, t, u);
      }
    }
  }

  function RunningSet(sys: System): set<TxId> {
    set u | u in sys.txs && sys.txs[u].phase.Running?
  }

  lemma FindMover(sys: System, t: TxId) returns (mover: TxId)
    requires Inv(sys) && IsRunning(sys, t)
    ensures IsRunning(sys, mover) && forall u :: u in sys.txs ==> !WaitsFor(sys, mover, u)
  {
    var running := RunningSet(sys);
    LockOrderPreventsDeadlock(sys, running);
    assert t in running;
    mover :| mover in running && !WaitsIn(sys, mover, running);
    forall u | u in sys.txs ensures !WaitsFor(sys, mover, u) {
      if u !in running {
        HoldsNothing(sys, u);
      }
    }
  }

  lemma HoldsNothing(sys: System, u: TxId)
    requires Inv(sys) && u in sys.txs && !sys.txs[u].phase.Running?
    ensures sys.txs[u].held == {}
  {
    assert Consistent(sys.ledger, sys.txs[u]);
  }

  /** As long as some transaction runs, some transaction can take its next step. */
  lemma SomeoneCanMove(events: seq<Event>, t: TxId) returns (mover: TxId)
    requires IsRunning(Execute(events), t)
    ensures IsRunning(Execute(events), mover)
    ensures Perform(Execute(events), Advance(mover)) != Execute(events)
  {
    ExecuteInv(events);
    mover := FindMover(Execute(events), t);
    BlockedMeansWaiting(Execute(events), mover);
  }
}
