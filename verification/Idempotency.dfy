/** Retries under an idempotency key. */
module Idempotency {
  import opened Prelude
  import opened Ledger
  import opened LedgerInvariants
  import opened Cancellation

  /** The key was already used by this actor for this very intent. */
  predicate IsRetry(s: State, p: Posting) {
    var k := FindKey(s.operations, p.key);
    k < |s.operations| && s.operations[k].actor == p.actor && s.operations[k].intent == p.intent
  }

  /** A recorded operation's intent was well formed. */
  ghost predicate WellFormedIntents(operations: seq<Operation>) {
    forall k :: 0 <= k < |operations| ==> Malformed(operations[k].intent).None?
  }

  lemma StepWellFormed(s: State, r: Request)
    requires WellFormedIntents(s.operations)
    ensures WellFormedIntents(Apply(s, r).0.operations)
  {
  }

  lemma {:induction false} IntentsWellFormed(requests: seq<Request>)
    ensures WellFormedIntents(Run(EMPTY, requests).operations)
  {
    if requests != [] {
      var n := |requests| - 1;
      IntentsWellFormed(requests[..n]);
      StepWellFormed(Run(EMPTY, requests[..n]), requests[n]);
    }
  }

  lemma {:induction false} FindKeyExtends(operations: seq<Operation>, longer: seq<Operation>, key: Id)
    requires operations <= longer && FindKey(operations, key) < |operations|
    ensures FindKey(longer, key) == FindKey(operations, key)
    decreases |operations|
  {
    if operations[0].key != key {
      assert operations[1..] <= longer[1..];
      FindKeyExtends(operations[1..], longer[1..], key);
    }
  }

  /** A key that is in use never changes the ledger again: the same actor and intent get the
      recorded operation back, anyone and anything else is refused. */
  lemma UsedKeyChangesNothing(s: State, p: Posting)
    requires FindKey(s.operations, p.key) < |s.operations| && WellFormedIntents(s.operations)
    ensures ApplyPosting(s, p).0 == s
    ensures IsRetry(s, p) ==> ApplyPosting(s, p).1 == Posted(FindKey(s.operations, p.key), false)
    ensures !IsRetry(s, p) ==>
      ApplyPosting(s, p).1 == Rejected(Malformed(p.intent).GetOr(IdempotencyConflict))
  {
  }

  /** After a posting succeeds, the same actor repeating the same intent under the same key gets
      that operation, whatever happened in between (archiving the item or location included). */
  lemma {:induction false} RetryReturnsOriginal(s: State, p: Posting, between: seq<Request>, retry: Posting)
    requires ApplyPosting(s, p).1 == Posted(|s.operations|, true)
    requires retry.actor == p.actor && retry.key == p.key && retry.intent == p.intent
    ensures var s' := Run(ApplyPosting(s, p).0, between);
            ApplyPosting(s', retry) == (s', Posted(|s.operations|, false))
  {
    var posted := ApplyPosting(s, p).0;
    var s' := Run(posted, between);
    AppendOnly(posted, between);
    KeyOfLast(s.operations, OperationOf(s, p));
    FindKeyExtends(posted.operations, s'.operations, p.key);
    assert s'.operations[|s.operations|] == OperationOf(s, p);
  }

  lemma {:induction false} KeyOfLast(operations: seq<Operation>, op: Operation)
    requires FindKey(operations, op.key) == |operations|
    ensures FindKey(operations + [op], op.key) == |operations|
    decreases |operations|
  {
    if operations != [] {
      KeyOfLast(operations[1..], op);
      assert (operations + [op])[1..] == operations[1..] + [op];
    }
  }

  /** The run without the retries that came after a first success. */
  function WithoutRetries(s: State, requests: seq<Request>): seq<Request> {
    if requests == [] then []
    else
      var n := |requests| - 1;
      var kept := WithoutRetries(s, requests[..n]);
      if requests[n].Post? && IsRetry(Run(s, requests[..n]), requests[n].posting) then kept
      else kept + [requests[n]]
  }

  predicate RetryAt(requests: seq<Request>, n: nat)
    requires n < |requests|
  {
    requests[n].Post? && IsRetry(Run(EMPTY, requests[..n]), requests[n].posting)
  }

  /** The answer of every request of a run. */
  function Answers(requests: seq<Request>): seq<Outcome> {
    if requests == [] then []
    else
      var n := |requests| - 1;
      Answers(requests[..n]) + [Apply(Run(EMPTY, requests[..n]), requests[n]).1]
  }

  /** Of a run's answers, those of the requests that are not retries. */
  function KeptAnswers(requests: seq<Request>): seq<Outcome> {
    if requests == [] then []
    else
      var n := |requests| - 1;
      if RetryAt(requests, n) then KeptAnswers(requests[..n])
      else KeptAnswers(requests[..n]) + [Apply(Run(EMPTY, requests[..n]), requests[n]).1]
  }

  /** Erasing every retry leaves the ledger identical, and every request that is kept gets the
      answer it got in the whole run. */
  lemma {:induction false} RetriesAreInvisible(requests: seq<Request>)
    ensures Run(EMPTY, WithoutRetries(EMPTY, requests)) == Run(EMPTY, requests)
    ensures Answers(WithoutRetries(EMPTY, requests)) == KeptAnswers(requests)
  {
    if requests != [] {
      var n := |requests| - 1;
      RetriesAreInvisible(requests[..n]);
      if RetryAt(requests, n) {
        RetryChangesNothing(requests, n);
      } else {
        KeptSnoc(WithoutRetries(EMPTY, requests[..n]), requests[n]);
      }
    }
  }

  lemma RetryChangesNothing(requests: seq<Request>, n: nat)
    requires n + 1 == |requests| && RetryAt(requests, n)
    ensures Run(EMPTY, requests) == Run(EMPTY, requests[..n])
  {
    IntentsWellFormed(requests[..n]);
    UsedKeyChangesNothing(Run(EMPTY, requests[..n]), requests[n].posting);
  }

  lemma KeptSnoc(kept: seq<Request>, r: Request)
    ensures Run(EMPTY, kept + [r]) == Apply(Run(EMPTY, kept), r).0
    ensures Answers(kept + [r]) == Answers(kept) + [Apply(Run(EMPTY, kept), r).1]
  {
    assert (kept + [r])[..|kept|] == kept;
  }

  /** In any run each idempotency key has at most one operation. */
  lemma OneOperationPerKey(requests: seq<Request>, j: nat, k: nat)
    requires j < |Run(EMPTY, requests).operations| && k < |Run(EMPTY, requests).operations|
    requires Run(EMPTY, requests).operations[j].key == Run(EMPTY, requests).operations[k].key
    ensures j == k
  {
    RunSound(requests);
  }
}
