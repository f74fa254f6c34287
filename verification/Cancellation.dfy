/** What reversals and transfers do to balances over whole histories. */
module Cancellation {
  import opened Prelude
  import opened Ledger
  import opened LedgerInvariants

  /** An original operation that nothing has reversed. */
  ghost predicate Live(operations: seq<Operation>, k: nat)
    requires k < |operations|
  {
    operations[k].kind != Reversal && !IsReversed(operations, k)
  }

  /** Sum over the live ones among the first n operations. */
  ghost function LiveTotal(operations: seq<Operation>, n: nat, scope: Scope): real
    requires n <= |operations|
  {
    if n == 0 then 0.0
    else
      LiveTotal(operations, n - 1, scope)
      + if Live(operations, n - 1) then Net(operations[n - 1].movements, scope) else 0.0
  }

  lemma HistoryPrefix(operations: seq<Operation>, n: nat)
    requires History(operations) && n <= |operations|
    ensures History(operations[..n])
  {
    forall k | 0 <= k < n ensures Proper(operations[..n], k) {
      assert Proper(operations, k);
    }
  }

  /** The two sums differ only in operation j, live in the shorter history and dead in the longer. */
  lemma {:induction false} LiveTotalWithout(
      shorter: seq<Operation>, longer: seq<Operation>, n: nat, j: nat, scope: Scope)
    requires n <= |shorter| <= |longer| && j < |shorter|
    requires forall k :: 0 <= k < |shorter| ==> shorter[k] == longer[k]
    requires forall k :: 0 <= k < |shorter| && k != j ==> (Live(longer, k) <==> Live(shorter, k))
    requires Live(shorter, j) && !Live(longer, j)
    ensures LiveTotal(longer, n, scope)
         == LiveTotal(shorter, n, scope) - if j < n then Net(shorter[j].movements, scope) else 0.0
  {
    if n > 0 {
      LiveTotalWithout(shorter, longer, n - 1, j, scope);
    }
  }

  ghost predicate SameAt(shorter: seq<Operation>, longer: seq<Operation>, k: nat)
    requires k < |shorter| <= |longer|
  {
    shorter[k] == longer[k] && (Live(longer, k) <==> Live(shorter, k))
  }

  lemma {:induction false} LiveTotalSame(shorter: seq<Operation>, longer: seq<Operation>, n: nat, scope: Scope)
    requires n <= |shorter| <= |longer|
    requires forall k :: 0 <= k < n ==> SameAt(shorter, longer, k)
    ensures LiveTotal(longer, n, scope) == LiveTotal(shorter, n, scope)
  {
    if n > 0 {
      assert SameAt(shorter, longer, n - 1);
      LiveTotalSame(shorter, longer, n - 1, scope);
    }
  }

  /** Which operations stay live when one more is appended. */
  lemma LiveAfterAppend(operations: seq<Operation>, n: nat)
    requires History(operations) && n + 1 == |operations|
    ensures forall k :: 0 <= k < n && operations[n].reverses != Some(k) ==>
      (Live(operations, k) <==> Live(operations[..n], k))
    ensures operations[n].reverses.Some? ==>
      var j := operations[n].reverses.value;
      j < n && Live(operations[..n], j) && !Live(operations, j)
    ensures Live(operations, n) <==> operations[n].kind != Reversal
  {
    var before := operations[..n];
    assert Proper(operations, n);
    forall k | 0 <= k < n && operations[n].reverses != Some(k)
      ensures Live(operations, k) <==> Live(before, k)
    {
      assert forall j :: 0 <= j < n ==> before[j] == operations[j];
      if IsReversed(operations, k) {
        var j :| 0 <= j < |operations| && operations[j].reverses == Some(k);
        assert before[j].reverses == Some(k);
      }
      if IsReversed(before, k) {
        var j :| 0 <= j < n && before[j].reverses == Some(k);
        assert operations[j].reverses == Some(k);
      }
    }
    if operations[n].reverses.Some? {
      var j := operations[n].reverses.value;
      assert operations[n].reverses == Some(j);
      forall i | 0 <= i < n ensures before[i].reverses != Some(j) {
        assert before[i] == operations[i];
      }
    }
    if IsReversed(operations, n) {
      var i :| 0 <= i < |operations| && operations[i].reverses == Some(n);
      assert Proper(operations, i);
    }
  }

  /** Every sum of movements equals the sum over the operations that are neither reversals nor
      reversed: an operation and its reversal cancel at every position. */
  lemma {:induction false} ReversalsCancel(operations: seq<Operation>, scope: Scope)
    requires History(operations)
    ensures Total(operations, scope) == LiveTotal(operations, |operations|, scope)
  {
    if operations != [] {
      var n := |operations| - 1;
      var before := operations[..n];
      HistoryPrefix(operations, n);
      ReversalsCancel(before, scope);
      LiveAfterAppend(operations, n);
      assert Proper(operations, n);
      if operations[n].kind == Reversal {
        var j := operations[n].reverses.value;
        LiveTotalWithout(before, operations, n, j, scope);
        NetNegated(operations[j].movements, scope);
      } else {
        LiveTotalSame(before, operations, n, scope);
      }
    }
  }

  /** In every reachable ledger each balance is the sum over the live operations; an operation is
      reversed at most once and a reversal never. */
  lemma BalanceIsLive(requests: seq<Request>, item: Id, location: Id)
    ensures var ops := Run(EMPTY, requests).operations;
            && Balance(Run(EMPTY, requests), item, location) == LiveTotal(ops, |ops|, At(item, location))
            && (forall j, k :: 0 <= j < k < |ops| && ops[j].reverses.Some? ==> ops[j].reverses != ops[k].reverses)
            && (forall k :: 0 <= k < |ops| && ops[k].reverses.Some? ==>
                  ops[k].reverses.value < k && ops[ops[k].reverses.value].kind != Reversal)
  {
    RunSound(requests);
    var ops := Run(EMPTY, requests).operations;
    ReversalsCancel(ops, At(item, location));
    forall k | 0 <= k < |ops| && ops[k].reverses.Some?
      ensures ops[k].reverses.value < k && ops[ops[k].reverses.value].kind != Reversal
    {
      assert Proper(ops, k);
    }
  }

  lemma TransferNetsToZero(op: Operation, item: Id)
    requires Shaped(op) && op.kind == Transfer
    ensures Net(op.movements, OfItem(item)) == 0.0
  {
    assert op.movements == [op.movements[0], op.movements[1]];
    NetTwo(op.movements[0], op.movements[1], OfItem(item));
  }

  /** A transfer, and the reversal of one, leaves every item's total over all locations unchanged. */
  lemma TransferConserves(s: State, p: Posting, item: Id)
    requires Sound(s) && Refusal(s, p).None?
    requires p.intent.TransferIntent? ||
             (p.intent.ReversalIntent? && s.operations[p.intent.operation].kind == Transfer)
    ensures Total(ApplyPosting(s, p).0.operations, OfItem(item)) == Total(s.operations, OfItem(item))
  {
    AcceptedIsPostable(s, p);
    var op := OperationOf(s, p);
    TotalSnoc(s.operations, op, OfItem(item));
    if p.intent.TransferIntent? {
      TransferNetsToZero(op, item);
    } else {
      var original := s.operations[p.intent.operation];
      assert Proper(s.operations, p.intent.operation);
      TransferNetsToZero(original, item);
      NetNegated(original.movements, OfItem(item));
    }
  }

  /** Taking an operation back restores every sum to what it was before both. */
  lemma ReversalUndoes(s: State, p: Posting, k: nat, scope: Scope)
    requires Sound(s) && Refusal(s, p).None? && p.intent.ReversalIntent? && p.intent.operation == k
    ensures k < |s.operations|
    ensures Total(ApplyPosting(s, p).0.operations, scope)
         == Total(s.operations, scope) - Net(s.operations[k].movements, scope)
  {
    TotalSnoc(s.operations, OperationOf(s, p), scope);
    NetNegated(s.operations[k].movements, scope);
  }

  // ----- what stays fixed

  /** Operations are only ever appended, and records are never removed. */
  lemma {:induction false} AppendOnly(s: State, requests: seq<Request>)
    ensures s.operations <= Run(s, requests).operations
    ensures s.items.Keys <= Run(s, requests).items.Keys
    ensures s.locations.Keys <= Run(s, requests).locations.Keys
  {
    if requests != [] {
      AppendOnly(s, requests[..|requests| - 1]);
    }
  }

  lemma MovedBaseUnit(s: State, item: Id)
    requires Grounded(s) && HasMovement(s.operations, OfItem(item))
    ensures item in s.items && s.items[item].baseUom.Some?
  {
    var k :| 0 <= k < |s.operations| && Moves(s.operations[k], OfItem(item));
    var m :| m in s.operations[k].movements && Covers(OfItem(item), m);
  }

  lemma UnitStep(s: State, r: Request, item: Id)
    requires Sound(s) && HasMovement(s.operations, OfItem(item))
    ensures var s' := Apply(s, r).0;
            item in s.items && item in s'.items && s'.items[item].baseUom == s.items[item].baseUom
    ensures HasMovement(Apply(s, r).0.operations, OfItem(item))
  {
    MovedBaseUnit(s, item);
    var k :| 0 <= k < |s.operations| && Moves(s.operations[k], OfItem(item));
    assert Apply(s, r).0.operations[k] == s.operations[k];
  }

  /** Once an item has a movement its base unit never changes again, so every movement was posted
      in its item's current, non-null unit. */
  lemma {:induction false} UnitStable(s: State, requests: seq<Request>, item: Id)
    requires Sound(s) && HasMovement(s.operations, OfItem(item))
    ensures Sound(Run(s, requests)) && HasMovement(Run(s, requests).operations, OfItem(item))
    ensures item in s.items && item in Run(s, requests).items && s.items[item].baseUom.Some?
    ensures Run(s, requests).items[item].baseUom == s.items[item].baseUom
  {
    MovedBaseUnit(s, item);
    if requests != [] {
      var n := |requests| - 1;
      UnitStable(s, requests[..n], item);
      ApplySound(Run(s, requests[..n]), requests[n]);
      UnitStep(Run(s, requests[..n]), requests[n], item);
    }
  }
}
