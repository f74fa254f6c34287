/** Fixed-window attempt limits, one stored row per action and identifier. */
module Throttle {
  import opened Prelude

  /** A bucket stands for the keyed hash of an action and an identifier. */
  datatype Bucket = Bucket(action: string, identifier: string)

  datatype Row = Row(attempts: nat, windowStart: int)

  datatype Settings = Settings(loginAttempts: nat, loginWindow: nat, mailAttempts: nat, mailWindow: nat)

  function Maximum(settings: Settings, action: string): nat {
    if action == "login" then settings.loginAttempts else settings.mailAttempts
  }

  function Window(settings: Settings, action: string): nat {
    if action == "login" then settings.loginWindow else settings.mailWindow
  }

  /** What one attempt does to its row, and whether it is allowed. */
  function Charge(row: Option<Row>, now: int, maximum: nat, window: nat): (Row, bool) {
    var stored := row.GetOr(Row(0, now));
    var current := if stored.windowStart + window <= now then Row(0, now) else stored;
    if current.attempts >= maximum then (current, false)
    else (Row(current.attempts + 1, current.windowStart), true)
  }

  class Limiter {
    const settings: Settings
    var rows: map<Bucket, Row>

    constructor (settings: Settings)
      ensures this.settings == settings && rows == map[]
    {
      this.settings := settings;
      rows := map[];
    }

    method Allow(action: string, identifier: string, now: int) returns (allowed: bool)
      modifies this
      ensures var bucket := Bucket(action, identifier);
              var charged := Charge(Find(old(rows), bucket), now, Maximum(settings, action), Window(settings, action));
              rows == old(rows)[bucket := charged.0] && allowed == charged.1
      ensures var bucket := Bucket(action, identifier);
              var running := bucket in old(rows) && now < old(rows)[bucket].windowStart + Window(settings, action);
              && (running ==> (allowed <==> old(rows)[bucket].attempts < Maximum(settings, action)))
              && (running && !allowed ==> rows == old(rows))
              && (!running ==> (allowed <==> 0 < Maximum(settings, action)) && rows[bucket].windowStart == now)
    {
      var bucket := Bucket(action, identifier);
      var login := action == "login";
      var maximum := if login then settings.loginAttempts else settings.mailAttempts;
      var window := if login then settings.loginWindow else settings.mailWindow;
      if bucket !in rows {
        rows := rows[bucket := Row(0, now)];
      }
      var row := rows[bucket];
      if row.windowStart + window <= now {
        row := Row(0, now);
      }
      allowed := row.attempts < maximum;
      if allowed {
        row := row.(attempts := row.attempts + 1);
      }
      rows := rows[bucket := row];
    }

    method ClearLogin(email: string)
      modifies this
      ensures var login := Bucket("login", email);
              rows == if login in old(rows) then old(rows)[login := old(rows)[login].(attempts := 0)] else old(rows)
    {
      var bucket := Bucket("login", email);
      if bucket in rows {
        rows := rows[bucket := rows[bucket].(attempts := 0)];
      }
    }
  }

  // ----- whole runs over many buckets

  /** Attempts for any buckets, and logins cleared after a successful sign-in. */
  datatype Call = Attempt(bucket: Bucket, now: int) | Clear(email: string)

  /** The stored rows after serving calls one after another. */
  function Serve(settings: Settings, calls: seq<Call>): map<Bucket, Row> {
    if calls == [] then map[]
    else
      var n := |calls| - 1;
      var rows := Serve(settings, calls[..n]);
      match calls[n]
      case Attempt(b, now) =>
        rows[b := Charge(Find(rows, b), now, Maximum(settings, b.action), Window(settings, b.action)).0]
      case Clear(email) =>
        var b := Bucket("login", email);
        if b in rows then rows[b := rows[b].(attempts := 0)] else rows
  }

  /** The clock readings of the attempts on a bucket. */
  function TimesOf(calls: seq<Call>, bucket: Bucket): seq<int> {
    if calls == [] then []
    else
      var n := |calls| - 1;
      var before := TimesOf(calls[..n], bucket);
      if Tries(calls[n], bucket) then before + [calls[n].now] else before
  }

  ghost predicate NonDecreasing(times: seq<int>) {
    forall i, j :: 0 <= i <= j < |times| ==> times[i] <= times[j]
  }

  predicate Tries(call: Call, bucket: Bucket) {
    call.Attempt? && call.bucket == bucket
  }

  predicate Clears(call: Call, bucket: Bucket) {
    call.Clear? && Bucket("login", call.email) == bucket
  }

  /** Whether call n of the run is an attempt on the bucket that the limiter allowed. */
  predicate AnsweredYes(settings: Settings, calls: seq<Call>, n: nat, bucket: Bucket)
    requires n < |calls|
  {
    && Tries(calls[n], bucket)
    && Charge(Find(Serve(settings, calls[..n]), bucket), calls[n].now,
              Maximum(settings, bucket.action), Window(settings, bucket.action)).1
  }

  /** Attempts on the bucket with lo <= time < hi that the limiter allowed. */
  function AllowedCalls(settings: Settings, calls: seq<Call>, bucket: Bucket, lo: int, hi: int): nat {
    if calls == [] then 0
    else
      var n := |calls| - 1;
      AllowedCalls(settings, calls[..n], bucket, lo, hi)
      + if AnsweredYes(settings, calls, n, bucket) && lo <= calls[n].now < hi then 1 else 0
  }

  /** The row's window shares a moment with the interval of one window length from a on. */
  predicate Overlaps(row: Option<Row>, a: int, window: nat) {
    row.Some? && a - window < row.value.windowStart < a + window
  }

  /** Clears of the bucket that find its row in a window overlapping the interval. */
  function FeltClears(settings: Settings, calls: seq<Call>, bucket: Bucket, a: int): nat {
    if calls == [] then 0
    else
      var n := |calls| - 1;
      var row := Find(Serve(settings, calls[..n]), bucket);
      FeltClears(settings, calls[..n], bucket, a)
      + if Clears(calls[n], bucket) && Overlaps(row, a, Window(settings, bucket.action)) then 1 else 0
  }

  ghost predicate NeverCleared(calls: seq<Call>, bucket: Bucket) {
    forall n :: 0 <= n < |calls| ==> !Clears(calls[n], bucket)
  }

  // ----- the bound

  /** The largest count in any interval of one window length when nothing is cleared. */
  function Bound(maximum: nat): nat {
    if maximum == 0 then 0 else 2 * maximum - 1
  }

  /** What a row tells about the attempts allowed so far in the interval from a on, when clears
      account for `extra` of them. */
  ghost predicate Fits(row: Option<Row>, allowed: nat, extra: nat, a: int, maximum: nat, window: nat) {
    match row
    case None => allowed == 0
    case Some(r) =>
      && r.attempts <= maximum
      && if maximum == 0 || r.windowStart <= a - window then allowed == 0
         else if r.windowStart < a then allowed <= r.attempts - 1 + extra
         else if r.windowStart < a + window then allowed <= maximum - 1 + r.attempts + extra
         else allowed <= Bound(maximum) + extra
  }

  lemma ChargeFits(row: Option<Row>, t: int, allowed: nat, extra: nat, a: int, maximum: nat, window: nat)
    requires Fits(row, allowed, extra, a, maximum, window) && window > 0
    requires row.Some? ==> row.value.windowStart <= t
    ensures var (after, yes) := Charge(row, t, maximum, window);
            && after.windowStart <= t
            && Fits(Some(after), allowed + if yes && a <= t < a + window then 1 else 0, extra, a, maximum, window)
  {
  }

  lemma ClearFits(row: Row, allowed: nat, extra: nat, a: int, maximum: nat, window: nat)
    requires Fits(Some(row), allowed, extra, a, maximum, window)
    ensures Fits(Some(row.(attempts := 0)), allowed,
                 extra + if Overlaps(Some(row), a, window) then maximum else 0, a, maximum, window)
  {
  }

  /** The row of a bucket was opened by one of its attempts. */
  ghost predicate OpenedBy(row: Option<Row>, times: seq<int>) {
    row.Some? ==> times != [] && row.value.windowStart <= times[|times| - 1]
  }

  lemma OtherCall(settings: Settings, calls: seq<Call>, call: Call, bucket: Bucket, a: int, b: int)
    requires !Tries(call, bucket) && !Clears(call, bucket)
    ensures Find(Serve(settings, calls + [call]), bucket) == Find(Serve(settings, calls), bucket)
    ensures TimesOf(calls + [call], bucket) == TimesOf(calls, bucket)
    ensures AllowedCalls(settings, calls + [call], bucket, a, b) == AllowedCalls(settings, calls, bucket, a, b)
    ensures FeltClears(settings, calls + [call], bucket, a) == FeltClears(settings, calls, bucket, a)
  {
    assert (calls + [call])[..|calls|] == calls;
  }

  lemma OwnAttempt(settings: Settings, calls: seq<Call>, bucket: Bucket, t: int, a: int, b: int)
    ensures var all := calls + [Attempt(bucket, t)];
            var row := Find(Serve(settings, calls), bucket);
            var charged := Charge(row, t, Maximum(settings, bucket.action), Window(settings, bucket.action));
            && Find(Serve(settings, all), bucket) == Some(charged.0)
            && TimesOf(all, bucket) == TimesOf(calls, bucket) + [t]
            && AllowedCalls(settings, all, bucket, a, b)
               == AllowedCalls(settings, calls, bucket, a, b) + (if charged.1 && a <= t < b then 1 else 0)
            && FeltClears(settings, all, bucket, a) == FeltClears(settings, calls, bucket, a)
  {
    assert (calls + [Attempt(bucket, t)])[..|calls|] == calls;
  }

  lemma OwnClear(settings: Settings, calls: seq<Call>, email: string, a: int, b: int)
    ensures var bucket := Bucket("login", email);
            var all := calls + [Clear(email)];
            var row := Find(Serve(settings, calls), bucket);
            && Find(Serve(settings, all), bucket)
               == (if row.Some? then Some(row.value.(attempts := 0)) else None)
            && TimesOf(all, bucket) == TimesOf(calls, bucket)
            && AllowedCalls(settings, all, bucket, a, b) == AllowedCalls(settings, calls, bucket, a, b)
            && FeltClears(settings, all, bucket, a)
               == FeltClears(settings, calls, bucket, a)
                  + (if Overlaps(row, a, Window(settings, "login")) then 1 else 0)
  {
    assert (calls + [Clear(email)])[..|calls|] == calls;
  }

  /** What holds of a row after these attempts, so many of them allowed in the interval. */
  ghost predicate Tracks(
    row: Option<Row>, times: seq<int>, allowed: nat, extra: nat, a: int, maximum: nat, window: nat)
  {
    OpenedBy(row, times) && Fits(row, allowed, extra, a, maximum, window)
  }

  ghost predicate Tracked(settings: Settings, calls: seq<Call>, bucket: Bucket, a: int) {
    var maximum, window := Maximum(settings, bucket.action), Window(settings, bucket.action);
    Tracks(Find(Serve(settings, calls), bucket), TimesOf(calls, bucket),
           AllowedCalls(settings, calls, bucket, a, a + window),
           Scaled(maximum, FeltClears(settings, calls, bucket, a)), a, maximum, window)
  }

  /** `maximum` for each clear. */
  function Scaled(maximum: nat, clears: nat): nat {
    maximum * clears
  }

  lemma ScaledNext(maximum: nat, clears: nat)
    ensures Scaled(maximum, clears + 1) == Scaled(maximum, clears) + maximum
    ensures Scaled(maximum, 0) == 0 && Scaled(maximum, 1) == maximum
  {
  }

  lemma {:induction false} RunTracked(settings: Settings, calls: seq<Call>, bucket: Bucket, a: int)
    requires Window(settings, bucket.action) > 0 && NonDecreasing(TimesOf(calls, bucket))
    ensures Tracked(settings, calls, bucket, a)
  {
    if calls != [] {
      var n := |calls| - 1;
      var before, call := calls[..n], calls[n];
      assert calls == before + [call];
      if Tries(call, bucket) {
        OwnAttempt(settings, before, bucket, call.now, a, a);
        EarlierTimes(TimesOf(before, bucket), call.now);
        RunTracked(settings, before, bucket, a);
        AttemptTracked(settings, before, bucket, call.now, a);
      } else if Clears(call, bucket) {
        OwnClear(settings, before, call.email, a, a);
        RunTracked(settings, before, bucket, a);
        ClearTracked(settings, before, call.email, a);
      } else {
        OtherCall(settings, before, call, bucket, a, a + Window(settings, bucket.action));
        RunTracked(settings, before, bucket, a);
      }
    }
  }

  lemma EarlierTimes(times: seq<int>, t: int)
    requires NonDecreasing(times + [t])
    ensures NonDecreasing(times) && (times != [] ==> times[|times| - 1] <= t)
  {
    var all := times + [t];
    assert forall i :: 0 <= i < |times| ==> all[i] == times[i];
    assert all[|times|] == t;
  }

  lemma AttemptTracks(
      row: Option<Row>, times: seq<int>, allowed: nat, extra: nat, t: int, a: int, maximum: nat, window: nat)
    requires Tracks(row, times, allowed, extra, a, maximum, window) && window > 0
    requires times != [] ==> times[|times| - 1] <= t
    ensures var (after, yes) := Charge(row, t, maximum, window);
            Tracks(Some(after), times + [t], allowed + if yes && a <= t < a + window then 1 else 0, extra,
                   a, maximum, window)
  {
    ChargeFits(row, t, allowed, extra, a, maximum, window);
    assert (times + [t])[|times|] == t;
  }

  lemma TrackedAs(
      settings: Settings, calls: seq<Call>, bucket: Bucket, a: int, row: Option<Row>, times: seq<int>, allowed: nat,
      felt: nat)
    requires Find(Serve(settings, calls), bucket) == row && TimesOf(calls, bucket) == times
    requires AllowedCalls(settings, calls, bucket, a, a + Window(settings, bucket.action)) == allowed
    requires FeltClears(settings, calls, bucket, a) == felt
    requires var maximum, window := Maximum(settings, bucket.action), Window(settings, bucket.action);
             Tracks(row, times, allowed, Scaled(maximum, felt), a, maximum, window)
    ensures Tracked(settings, calls, bucket, a)
  {
  }

  lemma AttemptTracked(settings: Settings, before: seq<Call>, bucket: Bucket, t: int, a: int)
    requires Window(settings, bucket.action) > 0 && Tracked(settings, before, bucket, a)
    requires TimesOf(before, bucket) != [] ==> TimesOf(before, bucket)[|TimesOf(before, bucket)| - 1] <= t
    ensures Tracked(settings, before + [Attempt(bucket, t)], bucket, a)
  {
    var maximum, window := Maximum(settings, bucket.action), Window(settings, bucket.action);
    var row, times := Find(Serve(settings, before), bucket), TimesOf(before, bucket);
    var allowed := AllowedCalls(settings, before, bucket, a, a + window);
    var felt := FeltClears(settings, before, bucket, a);
    var (after, yes) := Charge(row, t, maximum, window);
    AttemptTracks(row, times, allowed, Scaled(maximum, felt), t, a, maximum, window);
    OwnAttempt(settings, before, bucket, t, a, a + window);
    TrackedAs(
      settings, before + [Attempt(bucket, t)], bucket, a, Some(after), times + [t],
      allowed + (if yes && a <= t < a + window then 1 else 0), felt);
  }

  lemma ClearTracked(settings: Settings, before: seq<Call>, email: string, a: int)
    requires Tracked(settings, before, Bucket("login", email), a)
    ensures Tracked(settings, before + [Clear(email)], Bucket("login", email), a)
  {
    var bucket := Bucket("login", email);
    var maximum, window := settings.loginAttempts, settings.loginWindow;
    var row, felt := Find(Serve(settings, before), bucket), FeltClears(settings, before, bucket, a);
    OwnClear(settings, before, email, a, a + window);
    if row.Some? {
      ScaledNext(maximum, felt);
      ClearFits(
        row.value, AllowedCalls(settings, before, bucket, a, a + window), Scaled(maximum, felt), a, maximum, window);
    }
  }

  lemma {:induction false} EmptyInterval(settings: Settings, calls: seq<Call>, bucket: Bucket, a: int)
    ensures AllowedCalls(settings, calls, bucket, a, a) == 0
  {
    if calls != [] {
      EmptyInterval(settings, calls[..|calls| - 1], bucket, a);
    }
  }

  /** In every run of attempts on any buckets and of sign-ins, for every bucket whose clock readings
      never go back: any half-open interval of one window length contains at most 2 * maximum - 1
      allowed attempts, one less than two full windows, and at most `maximum` more for each clear
      of the bucket that finds it in a window overlapping the interval. */
  lemma FixedWindowBound(settings: Settings, calls: seq<Call>, bucket: Bucket, a: int)
    requires NonDecreasing(TimesOf(calls, bucket))
    ensures var maximum, window := Maximum(settings, bucket.action), Window(settings, bucket.action);
            AllowedCalls(settings, calls, bucket, a, a + window)
            <= Bound(maximum) + maximum * FeltClears(settings, calls, bucket, a)
  {
    if Window(settings, bucket.action) == 0 {
      EmptyInterval(settings, calls, bucket, a);
    } else {
      RunTracked(settings, calls, bucket, a);
    }
  }

  lemma {:induction false} NothingFelt(settings: Settings, calls: seq<Call>, bucket: Bucket, a: int)
    requires NeverCleared(calls, bucket)
    ensures FeltClears(settings, calls, bucket, a) == 0
  {
    if calls != [] {
      NothingFelt(settings, calls[..|calls| - 1], bucket, a);
    }
  }

  /** Only logins can be cleared. */
  lemma OthersAreNeverCleared(calls: seq<Call>, bucket: Bucket)
    requires bucket.action != "login"
    ensures NeverCleared(calls, bucket)
  {
    forall n | 0 <= n < |calls| ensures !Clears(calls[n], bucket) {
      if calls[n].Clear? {
        assert Bucket("login", calls[n].email).action == "login";
      }
    }
  }

  /** A bucket that is never cleared, whatever its action, stays within 2 * maximum - 1. */
  lemma EveryBucketBounded(settings: Settings, calls: seq<Call>, bucket: Bucket, a: int)
    requires NeverCleared(calls, bucket) && NonDecreasing(TimesOf(calls, bucket))
    ensures AllowedCalls(settings, calls, bucket, a, a + Window(settings, bucket.action))
         <= Bound(Maximum(settings, bucket.action))
  {
    NothingFelt(settings, calls, bucket, a);
    ScaledNext(Maximum(settings, bucket.action), 0);
    FixedWindowBound(settings, calls, bucket, a);
  }

  // ----- the bound is reached

  /** A run that ends with this row, this many allowed attempts in the interval from a on and this
      many felt clears, its clock never going back and now showing `last`. */
  ghost predicate Reached(
    settings: Settings, calls: seq<Call>, bucket: Bucket, a: int, row: Row, allowed: nat, felt: nat, last: int)
  {
    && Find(Serve(settings, calls), bucket) == Some(row)
    && AllowedCalls(settings, calls, bucket, a, a + Window(settings, bucket.action)) == allowed
    && FeltClears(settings, calls, bucket, a) == felt
    && NonDecreasing(TimesOf(calls, bucket))
    && forall i :: 0 <= i < |TimesOf(calls, bucket)| ==> TimesOf(calls, bucket)[i] <= last
  }

  function Inside(t: int, a: int, window: nat): nat {
    if a <= t < a + window then 1 else 0
  }

  lemma ReachedFirst(settings: Settings, bucket: Bucket, a: int, t: int)
    requires Maximum(settings, bucket.action) > 0 && Window(settings, bucket.action) > 0
    ensures Reached(settings, [Attempt(bucket, t)], bucket, a, Row(1, t),
                    Inside(t, a, Window(settings, bucket.action)), 0, t)
  {
    assert [] + [Attempt(bucket, t)] == [Attempt(bucket, t)];
    OwnAttempt(settings, [], bucket, t, a, a + Window(settings, bucket.action));
  }

  /** One more allowed attempt, in the row's window or opening the next one. */
  lemma ReachedAttempt(
      settings: Settings, calls: seq<Call>, bucket: Bucket, a: int, row: Row, allowed: nat, felt: nat, last: int,
      t: int, after: Row)
    requires Reached(settings, calls, bucket, a, row, allowed, felt, last) && last <= t
    requires Charge(Some(row), t, Maximum(settings, bucket.action), Window(settings, bucket.action)) == (after, true)
    ensures Reached(settings, calls + [Attempt(bucket, t)], bucket, a, after,
                    allowed + Inside(t, a, Window(settings, bucket.action)), felt, t)
  {
    OwnAttempt(settings, calls, bucket, t, a, a + Window(settings, bucket.action));
  }

  lemma ChargedWithin(row: Row, t: int, maximum: nat, window: nat)
    requires t < row.windowStart + window && row.attempts < maximum
    ensures Charge(Some(row), t, maximum, window) == (row.(attempts := row.attempts + 1), true)
  {
  }

  function Repeated(bucket: Bucket, t: int, n: nat): seq<Call> {
    if n == 0 then [] else Repeated(bucket, t, n - 1) + [Attempt(bucket, t)]
  }

  /** n more attempts at one moment of the row's window. */
  lemma {:induction false} ReachedRepeated(
      settings: Settings, calls: seq<Call>, bucket: Bucket, a: int, row: Row, allowed: nat, felt: nat, last: int,
      t: int, n: nat)
    requires Reached(settings, calls, bucket, a, row, allowed, felt, last) && last <= t
    requires a <= t < a + Window(settings, bucket.action)
    requires row.windowStart <= t < row.windowStart + Window(settings, bucket.action)
    requires row.attempts + n <= Maximum(settings, bucket.action)
    ensures Reached(settings, calls + Repeated(bucket, t, n), bucket, a, row.(attempts := row.attempts + n),
                    allowed + n, felt, t)
  {
    if n == 0 {
      assert calls + Repeated(bucket, t, 0) == calls;
    } else {
      ReachedRepeated(settings, calls, bucket, a, row, allowed, felt, last, t, n - 1);
      var before, now := calls + Repeated(bucket, t, n - 1), row.(attempts := row.attempts + (n - 1));
      ChargedWithin(now, t, Maximum(settings, bucket.action), Window(settings, bucket.action));
      ReachedAttempt(
        settings, before, bucket, a, now, allowed + (n - 1), felt, t, t, row.(attempts := row.attempts + n));
      assert calls + Repeated(bucket, t, n) == before + [Attempt(bucket, t)];
    }
  }

  /** Sign-ins, each followed by a full allowance of attempts. */
  function Rounds(email: string, t: int, maximum: nat, clears: nat): seq<Call> {
    if clears == 0 then []
    else Rounds(email, t, maximum, clears - 1) + [Clear(email)] + Repeated(Bucket("login", email), t, maximum)
  }

  lemma RoundsSnoc(calls: seq<Call>, email: string, t: int, maximum: nat, clears: nat)
    requires clears > 0
    ensures calls + Rounds(email, t, maximum, clears)
         == calls + Rounds(email, t, maximum, clears - 1)
            + [Clear(email)] + Repeated(Bucket("login", email), t, maximum)
  {
  }

  lemma ReachedRound(
      settings: Settings, calls: seq<Call>, email: string, a: int, row: Row, allowed: nat, felt: nat, t: int)
    requires Reached(settings, calls, Bucket("login", email), a, row, allowed, felt, t)
    requires a <= t < a + settings.loginWindow && row.windowStart <= t < row.windowStart + settings.loginWindow
    requires row.attempts == settings.loginAttempts && Overlaps(Some(row), a, settings.loginWindow)
    ensures Reached(
              settings, calls + [Clear(email)] + Repeated(Bucket("login", email), t, settings.loginAttempts),
              Bucket("login", email), a, row, allowed + settings.loginAttempts, felt + 1, t)
  {
    var bucket, cleared := Bucket("login", email), row.(attempts := 0);
    OwnClear(settings, calls, email, a, a + settings.loginWindow);
    ReachedRepeated(
      settings, calls + [Clear(email)], bucket, a, cleared, allowed, felt + 1, t, t, settings.loginAttempts);
  }

  lemma {:induction false} ReachedRounds(
      settings: Settings, calls: seq<Call>, email: string, a: int, row: Row, allowed: nat, t: int, clears: nat)
    requires Reached(settings, calls, Bucket("login", email), a, row, allowed, 0, t)
    requires a <= t < a + settings.loginWindow && row.windowStart <= t < row.windowStart + settings.loginWindow
    requires row.attempts == settings.loginAttempts && Overlaps(Some(row), a, settings.loginWindow)
    ensures Reached(settings, calls + Rounds(email, t, settings.loginAttempts, clears), Bucket("login", email), a,
                    row, allowed + Scaled(settings.loginAttempts, clears), clears, t)
  {
    var maximum := settings.loginAttempts;
    if clears == 0 {
      assert calls + Rounds(email, t, maximum, 0) == calls;
    } else {
      ReachedRounds(settings, calls, email, a, row, allowed, t, clears - 1);
      var before := calls + Rounds(email, t, maximum, clears - 1);
      ReachedRound(
        settings, before, email, a, row, allowed + Scaled(maximum, clears - 1), clears - 1, t);
      ScaledNext(maximum, clears - 1);
      RoundsSnoc(calls, email, t, maximum, clears);
    }
  }

  /** One attempt, then the rest of its window's allowance at that window's last moment. */
  lemma ReachedFullWindow(settings: Settings, bucket: Bucket) returns (calls: seq<Call>)
    requires Maximum(settings, bucket.action) > 0 && Window(settings, bucket.action) >= 2
    ensures var maximum, window := Maximum(settings, bucket.action), Window(settings, bucket.action);
            Reached(settings, calls, bucket, window - 1, Row(maximum, 0), maximum - 1, 0, window - 1)
  {
    var maximum, window := Maximum(settings, bucket.action), Window(settings, bucket.action);
    ReachedFirst(settings, bucket, window - 1, 0);
    calls := [Attempt(bucket, 0)] + Repeated(bucket, window - 1, maximum - 1);
    ReachedRepeated(
      settings, [Attempt(bucket, 0)], bucket, window - 1, Row(1, 0), 0, 0, 0, window - 1, maximum - 1);
  }

  /** A full allowance in the next window. */
  lemma ReachedNextWindow(
      settings: Settings, calls: seq<Call>, bucket: Bucket, allowed: nat, felt: nat) returns (more: seq<Call>)
    requires Maximum(settings, bucket.action) > 0 && Window(settings, bucket.action) >= 2
    requires var window := Window(settings, bucket.action);
             Reached(settings, calls, bucket, window - 1, Row(Maximum(settings, bucket.action), 0),
                     allowed, felt, window - 1)
    ensures var maximum, window := Maximum(settings, bucket.action), Window(settings, bucket.action);
            Reached(settings, more, bucket, window - 1, Row(maximum, window), allowed + maximum, felt, window)
  {
    var maximum, window := Maximum(settings, bucket.action), Window(settings, bucket.action);
    ReachedAttempt(
      settings, calls, bucket, window - 1, Row(maximum, 0), allowed, felt, window - 1, window, Row(1, window));
    var started := calls + [Attempt(bucket, window)];
    more := started + Repeated(bucket, window, maximum - 1);
    ReachedRepeated(
      settings, started, bucket, window - 1, Row(1, window), allowed + 1, felt, window, window, maximum - 1);
  }

  /** The bound cannot be improved: for every limit, every window of at least two clock ticks and
      every number of clears (none, for a bucket that is not a login) some run reaches it. */
  lemma BoundIsTight(settings: Settings, bucket: Bucket, clears: nat) returns (calls: seq<Call>, a: int)
    requires Maximum(settings, bucket.action) > 0 && Window(settings, bucket.action) >= 2
    requires clears > 0 ==> bucket.action == "login"
    ensures NonDecreasing(TimesOf(calls, bucket)) && FeltClears(settings, calls, bucket, a) == clears
    ensures var maximum, window := Maximum(settings, bucket.action), Window(settings, bucket.action);
            AllowedCalls(settings, calls, bucket, a, a + window) == Bound(maximum) + maximum * clears
  {
    var maximum, window := Maximum(settings, bucket.action), Window(settings, bucket.action);
    calls := ReachedFullWindow(settings, bucket);
    a := window - 1;
    ScaledNext(maximum, 0);
    if clears > 0 {
      ReachedRounds(settings, calls, bucket.identifier, a, Row(maximum, 0), maximum - 1, window - 1, clears);
      calls := calls + Rounds(bucket.identifier, window - 1, maximum, clears);
    }
    calls := ReachedNextWindow(settings, calls, bucket, maximum - 1 + Scaled(maximum, clears), clears);
  }

  /** Attempts and sign-ins all at one moment: a full allowance for each clear and one more. */
  lemma AllAtOnce(settings: Settings, email: string, clears: nat) returns (calls: seq<Call>)
    requires settings.loginAttempts > 0 && settings.loginWindow > 0
    ensures var login, maximum := Bucket("login", email), settings.loginAttempts;
            && NonDecreasing(TimesOf(calls, login)) && FeltClears(settings, calls, login, 0) == clears
            && AllowedCalls(settings, calls, login, 0, settings.loginWindow) == maximum + maximum * clears
  {
    var login, maximum := Bucket("login", email), settings.loginAttempts;
    ReachedFirst(settings, login, 0, 0);
    ReachedRepeated(settings, [Attempt(login, 0)], login, 0, Row(1, 0), 1, 0, 0, 0, maximum - 1);
    var first := [Attempt(login, 0)] + Repeated(login, 0, maximum - 1);
    ReachedRounds(settings, first, email, 0, Row(maximum, 0), maximum, 0, clears);
    calls := first + Rounds(email, 0, maximum, clears);
  }

  /** For every positive limit and window, a single clear is enough to exceed the bound. */
  lemma ClearedLoginExceedsLimit(settings: Settings, email: string) returns (calls: seq<Call>)
    requires settings.loginAttempts > 0 && settings.loginWindow > 0
    ensures var login := Bucket("login", email);
            && NonDecreasing(TimesOf(calls, login)) && FeltClears(settings, calls, login, 0) == 1
            && AllowedCalls(settings, calls, login, 0, settings.loginWindow) > Bound(settings.loginAttempts)
  {
    calls := AllAtOnce(settings, email, 1);
    ScaledNext(settings.loginAttempts, 1);
  }

  /** All runs with this many felt clears stay within the bound. */
  ghost predicate BoundHolds(settings: Settings, bucket: Bucket, clears: nat) {
    forall calls, a ::
      NonDecreasing(TimesOf(calls, bucket)) && FeltClears(settings, calls, bucket, a) == clears ==>
        AllowedCalls(settings, calls, bucket, a, a + Window(settings, bucket.action))
        <= Bound(Maximum(settings, bucket.action))
  }

  /** Exactly when logins meet the bound in every run: when no clear is felt, when nothing is ever
      allowed, or when the interval is empty. */
  lemma NoClearIsExact(settings: Settings, email: string, clears: nat)
    ensures BoundHolds(settings, Bucket("login", email), clears)
       <==> clears == 0 || settings.loginAttempts == 0 || settings.loginWindow == 0
  {
    var login := Bucket("login", email);
    if clears == 0 || settings.loginAttempts == 0 || settings.loginWindow == 0 {
      forall calls, a | NonDecreasing(TimesOf(calls, login)) && FeltClears(settings, calls, login, a) == clears
        ensures AllowedCalls(settings, calls, login, a, a + settings.loginWindow) <= Bound(settings.loginAttempts)
      {
        FixedWindowBound(settings, calls, login, a);
        EmptyInterval(settings, calls, login, a);
      }
    } else {
      var calls := AllAtOnce(settings, email, clears);
      AtLeastOnce(settings.loginAttempts, clears);
      assert AllowedCalls(settings, calls, login, 0, 0 + settings.loginWindow) > Bound(settings.loginAttempts);
    }
  }

  lemma AtLeastOnce(maximum: nat, clears: nat)
    requires clears > 0
    ensures maximum * clears >= maximum
  {
  }
}
