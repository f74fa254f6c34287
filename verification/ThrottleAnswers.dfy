/** Which attempts a limiter allows, told from the calls alone. */
module ThrottleAnswers {
  import opened Prelude
  import opened Throttle

  /** The last call that opened a window of the bucket: its first attempt, or one that comes at
      least a window after the attempt that opened the one before. */
  function Opener(window: nat, calls: seq<Call>, bucket: Bucket): (k: Option<nat>)
    ensures k.Some? ==> k.value < |calls| && Tries(calls[k.value], bucket)
  {
    if calls == [] then None
    else
      var n := |calls| - 1;
      var earlier := Opener(window, calls[..n], bucket);
      if Opens(window, calls, n, bucket, earlier) then Some(n) else earlier
  }

  predicate Opens(window: nat, calls: seq<Call>, n: nat, bucket: Bucket, earlier: Option<nat>)
    requires n < |calls| && (earlier.Some? ==> earlier.value < n && calls[earlier.value].Attempt?)
  {
    Tries(calls[n], bucket) && (earlier.None? || calls[earlier.value].now + window <= calls[n].now)
  }

  /** Where counting starts: at the window's first attempt, or after a later clear. */
  function CountedFrom(window: nat, calls: seq<Call>, bucket: Bucket): (k: nat)
    ensures k <= |calls|
  {
    if calls == [] then 0
    else
      var n := |calls| - 1;
      if Clears(calls[n], bucket) then n + 1
      else if Opens(window, calls, n, bucket, Opener(window, calls[..n], bucket)) then n
      else CountedFrom(window, calls[..n], bucket)
  }

  /** Attempts on the bucket among the calls from k on, allowed or not. */
  function AttemptsFrom(calls: seq<Call>, bucket: Bucket, k: nat): nat {
    if |calls| <= k then 0
    else
      var n := |calls| - 1;
      AttemptsFrom(calls[..n], bucket, k) + if Tries(calls[n], bucket) then 1 else 0
  }

  /** Those among them that were allowed. */
  function AllowedFrom(settings: Settings, calls: seq<Call>, bucket: Bucket, k: nat): nat {
    if |calls| <= k then 0
    else
      var n := |calls| - 1;
      AllowedFrom(settings, calls[..n], bucket, k) + if AnsweredYes(settings, calls, n, bucket) then 1 else 0
  }

  function Least(a: nat, b: nat): nat {
    if a <= b then a else b
  }

  /** The stored row, told from the calls: when its window was opened, and how many attempts were
      counted since, up to the maximum. */
  ghost predicate RowTold(settings: Settings, calls: seq<Call>, bucket: Bucket) {
    var maximum, window := Maximum(settings, bucket.action), Window(settings, bucket.action);
    var row, opener, from :=
      Find(Serve(settings, calls), bucket), Opener(window, calls, bucket), CountedFrom(window, calls, bucket);
    && (row.None? <==> opener.None?)
    && (opener.None? ==> AllowedFrom(settings, calls, bucket, from) == 0 == AttemptsFrom(calls, bucket, from))
    && (opener.Some? ==>
          && row == Some(Row(Least(maximum, AttemptsFrom(calls, bucket, from)), calls[opener.value].now))
          && AllowedFrom(settings, calls, bucket, from) == row.value.attempts
          && opener.value <= from)
  }

  lemma {:induction false} RowIsTold(settings: Settings, calls: seq<Call>, bucket: Bucket)
    ensures RowTold(settings, calls, bucket)
  {
    if calls != [] {
      var n := |calls| - 1;
      RowIsTold(settings, calls[..n], bucket);
    }
  }

  /** The run up to and including call n. */
  lemma UpTo(settings: Settings, calls: seq<Call>, n: nat, bucket: Bucket)
    requires n < |calls|
    ensures calls[..n + 1][..n] == calls[..n] && calls[..n + 1][n] == calls[n]
    ensures AnsweredYes(settings, calls[..n + 1], n, bucket) <==> AnsweredYes(settings, calls, n, bucket)
  {
  }

  /** In every run an attempt is allowed exactly when it is among the first `maximum` attempts
      since its window was opened or since the bucket was cleared in it. Refused attempts count,
      but the window they fall in is not moved by them. */
  lemma AnsweredExactly(settings: Settings, calls: seq<Call>, n: nat, bucket: Bucket)
    requires n < |calls| && Tries(calls[n], bucket)
    ensures var window, run := Window(settings, bucket.action), calls[..n + 1];
            AnsweredYes(settings, calls, n, bucket)
            <==> AttemptsFrom(run, bucket, CountedFrom(window, run, bucket)) <= Maximum(settings, bucket.action)
  {
    UpTo(settings, calls, n, bucket);
    RowIsTold(settings, calls[..n], bucket);
  }

  /** With a positive maximum, an attempt at least one window after the one that opened the last
      window is allowed, whatever was refused in between. A bucket's first attempt is, too. */
  lemma NextWindowAllows(settings: Settings, calls: seq<Call>, n: nat, bucket: Bucket)
    requires n < |calls| && Tries(calls[n], bucket) && Maximum(settings, bucket.action) > 0
    requires var window := Window(settings, bucket.action);
             var opener := Opener(window, calls[..n], bucket);
             opener.None? || calls[n].now >= calls[opener.value].now + window
    ensures AnsweredYes(settings, calls, n, bucket)
  {
    RowIsTold(settings, calls[..n], bucket);
  }

  lemma {:induction false} NowInTimes(calls: seq<Call>, bucket: Bucket, i: nat)
    requires i < |calls| && Tries(calls[i], bucket)
    ensures calls[i].now in TimesOf(calls, bucket)
  {
    var n := |calls| - 1;
    if i < n {
      NowInTimes(calls[..n], bucket, i);
    }
  }

  lemma {:induction false} TimesInOrder(calls: seq<Call>, bucket: Bucket, i: nat, j: nat)
    requires NonDecreasing(TimesOf(calls, bucket))
    requires i <= j < |calls| && Tries(calls[i], bucket) && Tries(calls[j], bucket)
    ensures calls[i].now <= calls[j].now
  {
    var n := |calls| - 1;
    if j < n {
      if Tries(calls[n], bucket) {
        EarlierTimes(TimesOf(calls[..n], bucket), calls[n].now);
      }
      TimesInOrder(calls[..n], bucket, i, j);
    } else if i < n {
      NowInTimes(calls[..n], bucket, i);
      var times := TimesOf(calls[..n], bucket);
      var k :| 0 <= k < |times| && times[k] == calls[i].now;
      assert TimesOf(calls, bucket)[k] == calls[i].now && TimesOf(calls, bucket)[|times|] == calls[n].now;
    }
  }

  lemma {:induction false} NoClearFrom(window: nat, calls: seq<Call>, bucket: Bucket, i: nat)
    requires CountedFrom(window, calls, bucket) <= i < |calls|
    ensures !Clears(calls[i], bucket)
  {
    var n := |calls| - 1;
    if i < n {
      NoClearFrom(window, calls[..n], bucket, i);
    }
  }

  /** The calls from k on, none of which clears the bucket, hold its attempts of the last window
      length before `now`. */
  ghost predicate Recent(window: nat, calls: seq<Call>, bucket: Bucket, k: nat, now: int) {
    && k <= |calls|
    && (forall i :: k <= i < |calls| ==> !Clears(calls[i], bucket))
    && (forall i :: k <= i < |calls| && Tries(calls[i], bucket) ==> now - window < calls[i].now <= now)
  }

  /** No attempt is refused without cause: since its last clear, within the window length before
      the refused attempt, the bucket was allowed exactly `maximum` attempts. */
  lemma RefusalHasCause(settings: Settings, calls: seq<Call>, n: nat, bucket: Bucket) returns (k: nat)
    requires NonDecreasing(TimesOf(calls, bucket))
    requires n < |calls| && Tries(calls[n], bucket) && !AnsweredYes(settings, calls, n, bucket)
    ensures Recent(Window(settings, bucket.action), calls[..n], bucket, k, calls[n].now)
    ensures AllowedFrom(settings, calls[..n], bucket, k) == Maximum(settings, bucket.action)
  {
    var window, before := Window(settings, bucket.action), calls[..n];
    if Maximum(settings, bucket.action) == 0 {
      k := n;
    } else {
      k := CountedFrom(window, before, bucket);
      RowIsTold(settings, before, bucket);
      RefusedWithin(settings, calls, n, bucket);
    }
  }

  lemma {:induction false} RefusedWithin(settings: Settings, calls: seq<Call>, n: nat, bucket: Bucket)
    requires NonDecreasing(TimesOf(calls, bucket)) && Maximum(settings, bucket.action) > 0
    requires n < |calls| && Tries(calls[n], bucket) && !AnsweredYes(settings, calls, n, bucket)
    ensures var window := Window(settings, bucket.action);
            Recent(window, calls[..n], bucket, CountedFrom(window, calls[..n], bucket), calls[n].now)
  {
    var window, before := Window(settings, bucket.action), calls[..n];
    var k := CountedFrom(window, before, bucket);
    RowIsTold(settings, before, bucket);
    var opener := Opener(window, before, bucket).value;
    forall i | k <= i < n ensures !Clears(before[i], bucket) {
      NoClearFrom(window, before, bucket, i);
    }
    forall i | k <= i < n && Tries(before[i], bucket) ensures calls[n].now - window < before[i].now <= calls[n].now {
      TimesInOrder(calls, bucket, opener, i);
      TimesInOrder(calls, bucket, i, n);
    }
  }

  /** A refused attempt in a running window leaves every row as it was. */
  lemma {:induction false} RefusalChangesNothing(settings: Settings, calls: seq<Call>, bucket: Bucket, now: int)
    requires var row := Find(Serve(settings, calls), bucket);
             row.Some? && now < row.value.windowStart + Window(settings, bucket.action)
    requires !AnsweredYes(settings, calls + [Attempt(bucket, now)], |calls|, bucket)
    ensures Serve(settings, calls + [Attempt(bucket, now)]) == Serve(settings, calls)
  {
    assert (calls + [Attempt(bucket, now)])[..|calls|] == calls;
  }
}
