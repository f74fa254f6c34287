/** Receipt quantities summed per billed target (PO number, PO line, item). */
module ReceiptTotals {
  import opened Prelude
  import opened Domain

  function QuantityAt(receipt: Receipt, target: Target): (r: real)
    ensures r >= 0.0
  {
    if ReceiptTarget(receipt) == target then receipt.received else 0.0
  }

  function ReceivedTotal(receipts: seq<Receipt>, target: Target): (r: real)
    ensures r >= 0.0
  {
    if receipts == [] then 0.0
    else ReceivedTotal(receipts[..|receipts| - 1], target) + QuantityAt(receipts[|receipts| - 1], target)
  }

  predicate HasReceipt(receipts: seq<Receipt>, target: Target) {
    exists r :: r in receipts && ReceiptTarget(r) == target
  }

  /** What was received for a target; None when no receipt line names it. */
  function Received(receipts: seq<Receipt>, target: Target): (r: Option<real>)
    ensures r.Some? ==> r.value >= 0.0
  {
    if HasReceipt(receipts, target) then Some(ReceivedTotal(receipts, target)) else None
  }

  lemma ReceivedSnoc(receipts: seq<Receipt>, k: nat, target: Target)
    requires k < |receipts|
    ensures ReceivedTotal(receipts[..k + 1], target)
         == ReceivedTotal(receipts[..k], target) + QuantityAt(receipts[k], target)
    ensures HasReceipt(receipts[..k + 1], target) <==>
            HasReceipt(receipts[..k], target) || ReceiptTarget(receipts[k]) == target
  {
    assert receipts[..k + 1][..k] == receipts[..k];
    assert receipts[..k + 1] == receipts[..k] + [receipts[k]];
  }

  lemma {:induction false} ReceivedWithout(receipts: seq<Receipt>, j: nat, target: Target)
    requires j < |receipts|
    ensures ReceivedTotal(receipts, target)
         == ReceivedTotal(receipts[..j] + receipts[j + 1..], target) + QuantityAt(receipts[j], target)
  {
    var n := |receipts| - 1;
    var rest := receipts[..j] + receipts[j + 1..];
    if j < n {
      ReceivedWithout(receipts[..n], j, target);
      assert rest[..|rest| - 1] == receipts[..n][..j] + receipts[..n][j + 1..];
    } else {
      assert rest == receipts[..n];
    }
  }

  lemma RemoveOne(few: seq<Receipt>, many: seq<Receipt>) returns (j: nat)
    requires few != [] && multiset(few) <= multiset(many)
    ensures j < |many| && many[j] == few[|few| - 1]
    ensures multiset(few[..|few| - 1]) <= multiset(many[..j] + many[j + 1..])
  {
    var last := few[|few| - 1];
    assert last in multiset(many);
    j :| 0 <= j < |many| && many[j] == last;
    var rest, front := many[..j] + many[j + 1..], few[..|few| - 1];
    assert many == many[..j] + [last] + many[j + 1..];
    assert multiset(many) == multiset(rest) + multiset{last};
    assert few == front + [last];
    assert multiset(few) == multiset(front) + multiset{last};
    forall r ensures multiset(front)[r] <= multiset(rest)[r] {
      assert multiset(few)[r] <= multiset(many)[r];
    }
  }

  lemma {:induction false} TotalGrows(few: seq<Receipt>, many: seq<Receipt>, target: Target)
    requires multiset(few) <= multiset(many)
    ensures ReceivedTotal(few, target) <= ReceivedTotal(many, target)
  {
    if few != [] {
      var j := RemoveOne(few, many);
      ReceivedWithout(many, j, target);
      TotalGrows(few[..|few| - 1], many[..j] + many[j + 1..], target);
    }
  }

  /** More receipt lines never lower what was received for a target. */
  lemma ReceivedGrows(few: seq<Receipt>, many: seq<Receipt>, target: Target)
    requires multiset(few) <= multiset(many)
    ensures Received(few, target).Some? ==>
      Received(many, target).Some? && Received(few, target).value <= Received(many, target).value
  {
    TotalGrows(few, many, target);
    if HasReceipt(few, target) {
      var r :| r in few && ReceiptTarget(r) == target;
      assert r in multiset(many);
    }
  }

  /** The order of receipt lines is irrelevant. */
  lemma ReceivedOrderIndependent(a: seq<Receipt>, b: seq<Receipt>, target: Target)
    requires multiset(a) == multiset(b)
    ensures Received(a, target) == Received(b, target)
  {
    ReceivedGrows(a, b, target);
    ReceivedGrows(b, a, target);
  }

  lemma {:induction false} NothingReceived(receipts: seq<Receipt>, target: Target)
    requires !HasReceipt(receipts, target)
    ensures ReceivedTotal(receipts, target) == 0.0
  {
    if receipts != [] {
      assert receipts == receipts[..|receipts| - 1] + [receipts[|receipts| - 1]];
      assert receipts[|receipts| - 1] in receipts;
      NothingReceived(receipts[..|receipts| - 1], target);
    }
  }
}
