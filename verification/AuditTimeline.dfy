/** The organization audit timeline: three separately truncated sources merged into pages that
    are chained by a (time, rank, id) cursor. */
module AuditTimeline {
  import opened Prelude
  import opened Ordering

  datatype Source = RunEvents | WorkflowEvents | GovernanceEvents

  datatype AuditEvent = AuditEvent(source: Source, id: nat, createdAt: int)

  datatype Cursor = Cursor(time: int, rank: int, id: nat)

  datatype Page = Page(items: seq<AuditEvent>, next: Option<Cursor>)

  function Rank(source: Source): int {
    match source
    case RunEvents => 1
    case WorkflowEvents => 2
    case GovernanceEvents => 3
  }

  /** The clause each source query applies. */
  predicate BeforeCursor(e: AuditEvent, cursor: Option<Cursor>) {
    if cursor.None? then true
    else
      var c := cursor.value;
      var equalTime := e.createdAt == c.time;
      var rank := Rank(e.source);
      var sameTime :=
        if rank < c.rank then equalTime
        else if rank == c.rank then equalTime && e.id < c.id
        else false;
      e.createdAt < c.time || sameTime
  }

  /** Sorting ascending by this key is sorting descending by (time, rank, id). */
  function TimelineKey(e: AuditEvent): Key {
    [-(e.createdAt as real), -(Rank(e.source) as real), -(e.id as real)]
  }

  /** `ORDER BY created_at DESC, id DESC`. */
  function QueryKey(e: AuditEvent): Key {
    [-(e.createdAt as real), -(e.id as real)]
  }

  function CursorOf(e: AuditEvent): Cursor {
    Cursor(e.createdAt, Rank(e.source), e.id)
  }

  function Take<T>(rows: seq<T>, n: nat): seq<T> {
    if |rows| <= n then rows else rows[..n]
  }

  function After(rows: seq<AuditEvent>, cursor: Option<Cursor>): seq<AuditEvent> {
    if rows == [] then []
    else if BeforeCursor(rows[0], cursor) then [rows[0]] + After(rows[1..], cursor)
    else After(rows[1..], cursor)
  }

  /** One source's query: its events past the cursor, newest first, one more than a page. */
  function Query(rows: seq<AuditEvent>, limit: nat, cursor: Option<Cursor>): seq<AuditEvent> {
    Take(SortBy(After(rows, cursor), QueryKey), limit + 1)
  }

  function Merged(runs: seq<AuditEvent>, workflow: seq<AuditEvent>, governance: seq<AuditEvent>,
                  limit: nat, cursor: Option<Cursor>): seq<AuditEvent> {
    SortBy(Query(runs, limit, cursor) + Query(workflow, limit, cursor) + Query(governance, limit, cursor), TimelineKey)
  }

  function Audit(runs: seq<AuditEvent>, workflow: seq<AuditEvent>, governance: seq<AuditEvent>,
                 limit: nat, cursor: Option<Cursor>): Page {
    var merged := Merged(runs, workflow, governance, limit, cursor);
    var items := Take(merged, limit);
    Page(items, if |merged| > limit && items != [] then Some(CursorOf(items[|items| - 1])) else None)
  }

  // ----- the timeline

  /** Each source holds its own events, and no event twice. */
  ghost predicate ValidSources(runs: seq<AuditEvent>, workflow: seq<AuditEvent>, governance: seq<AuditEvent>) {
    && (forall e :: e in runs ==> e.source == RunEvents)
    && (forall e :: e in workflow ==> e.source == WorkflowEvents)
    && (forall e :: e in governance ==> e.source == GovernanceEvents)
    && UniqueIds(runs) && UniqueIds(workflow) && UniqueIds(governance)
  }

  ghost predicate UniqueIds(rows: seq<AuditEvent>) {
    forall i, j :: 0 <= i < j < |rows| ==> rows[i].id != rows[j].id
  }

  function Timeline(runs: seq<AuditEvent>, workflow: seq<AuditEvent>, governance: seq<AuditEvent>): seq<AuditEvent> {
    SortBy(runs + workflow + governance, TimelineKey)
  }

  lemma TimelineKeyParts(a: AuditEvent, b: AuditEvent)
    ensures LexLeq(TimelineKey(a), TimelineKey(b)) <==>
            a.createdAt > b.createdAt
            || (a.createdAt == b.createdAt
                && (Rank(a.source) > Rank(b.source) || (Rank(a.source) == Rank(b.source) && a.id >= b.id)))
  {
    var x, y := TimelineKey(a), TimelineKey(b);
    assert x[1..] == [-(Rank(a.source) as real), -(a.id as real)];
    assert y[1..] == [-(Rank(b.source) as real), -(b.id as real)];
    assert x[1..][1..] == [-(a.id as real)] && y[1..][1..] == [-(b.id as real)];
    LexStep(x, y);
    LexStep(x[1..], y[1..]);
    LexStep(x[1..][1..], y[1..][1..]);
  }

  lemma QueryKeyParts(a: AuditEvent, b: AuditEvent)
    ensures LexLeq(QueryKey(a), QueryKey(b)) <==>
            a.createdAt > b.createdAt || (a.createdAt == b.createdAt && a.id >= b.id)
  {
    var x, y := QueryKey(a), QueryKey(b);
    assert x[1..] == [-(a.id as real)] && y[1..] == [-(b.id as real)];
    LexStep(x, y);
    LexStep(x[1..], y[1..]);
  }

  lemma TimelineKeyInjective(a: AuditEvent, b: AuditEvent)
    requires TimelineKey(a) == TimelineKey(b)
    ensures a == b
  {
    LexTotal(TimelineKey(a), TimelineKey(a));
    TimelineKeyParts(a, b);
    TimelineKeyParts(b, a);
  }

  /** The clause keeps exactly the events whose key lies strictly past the cursor's event. */
  lemma BeforeCursorMeaning(e: AuditEvent, last: AuditEvent)
    ensures BeforeCursor(e, Some(CursorOf(last))) <==>
            LexLeq(TimelineKey(last), TimelineKey(e)) && TimelineKey(last) != TimelineKey(e)
  {
    TimelineKeyParts(last, e);
    if TimelineKey(last) == TimelineKey(e) {
      TimelineKeyInjective(last, e);
    }
    assert TimelineKey(last)[0] == -(last.createdAt as real) && TimelineKey(e)[0] == -(e.createdAt as real);
  }

  // ----- filters and order

  lemma {:induction false} AfterMembers(rows: seq<AuditEvent>, cursor: Option<Cursor>, e: AuditEvent)
    ensures multiset(After(rows, cursor))[e] == if BeforeCursor(e, cursor) then multiset(rows)[e] else 0
  {
    if rows != [] {
      AfterMembers(rows[1..], cursor, e);
      assert rows == [rows[0]] + rows[1..];
    }
  }

  lemma {:induction false} AfterConcat(a: seq<AuditEvent>, b: seq<AuditEvent>, cursor: Option<Cursor>)
    ensures After(a + b, cursor) == After(a, cursor) + After(b, cursor)
  {
    if a == [] {
      assert a + b == b;
    } else {
      assert (a + b)[1..] == a[1..] + b;
      AfterConcat(a[1..], b, cursor);
    }
  }

  lemma StaysSorted(rows: seq<AuditEvent>, kept: seq<AuditEvent>)
    requires Sorted(rows, TimelineKey) && rows != []
    requires Sorted(kept, TimelineKey) && forall e :: e in kept ==> e in rows[1..]
    ensures Sorted([rows[0]] + kept, TimelineKey)
  {
    assert ([rows[0]] + kept)[1..] == kept;
  }

  lemma {:induction false} AfterSorted(rows: seq<AuditEvent>, cursor: Option<Cursor>)
    requires Sorted(rows, TimelineKey)
    ensures Sorted(After(rows, cursor), TimelineKey)
    ensures forall e :: e in After(rows, cursor) ==> e in rows
  {
    if rows != [] {
      AfterSorted(rows[1..], cursor);
      StaysSorted(rows, After(rows[1..], cursor));
    }
  }

  function OfSource(rows: seq<AuditEvent>, source: Source): seq<AuditEvent> {
    if rows == [] then []
    else if rows[0].source == source then [rows[0]] + OfSource(rows[1..], source)
    else OfSource(rows[1..], source)
  }

  lemma {:induction false} OfSourceMembers(rows: seq<AuditEvent>, source: Source, e: AuditEvent)
    ensures multiset(OfSource(rows, source))[e] == if e.source == source then multiset(rows)[e] else 0
  {
    if rows != [] {
      OfSourceMembers(rows[1..], source, e);
      assert rows == [rows[0]] + rows[1..];
    }
  }

  lemma {:induction false} OfSourceSorted(rows: seq<AuditEvent>, source: Source)
    requires Sorted(rows, TimelineKey)
    ensures Sorted(OfSource(rows, source), TimelineKey)
    ensures forall e :: e in OfSource(rows, source) ==> e in rows && e.source == source
  {
    if rows != [] {
      OfSourceSorted(rows[1..], source);
      StaysSorted(rows, OfSource(rows[1..], source));
    }
  }

  /** The events of one source among the first n are among the first n of that source. */
  lemma {:induction false} OfSourcePrefix(rows: seq<AuditEvent>, source: Source, n: nat, i: nat)
    requires i < n <= |rows| && rows[i].source == source
    ensures rows[i] in Take(OfSource(rows, source), n)
  {
    if i == 0 {
      assert OfSource(rows, source)[0] == rows[0];
      assert Take(OfSource(rows, source), n)[0] == rows[0];
    } else {
      OfSourcePrefix(rows[1..], source, n - 1, i - 1);
      var rest := OfSource(rows[1..], source);
      var j :| 0 <= j < |Take(rest, n - 1)| && Take(rest, n - 1)[j] == rows[i];
      var all := OfSource(rows, source);
      if rows[0].source == source {
        assert all[j + 1] == rest[j];
        assert Take(all, n)[j + 1] == rows[i];
      } else {
        assert all == rest;
        assert Take(all, n)[j] == rows[i];
      }
    }
  }

  /** Within one source the query order is the timeline order. */
  lemma {:induction false} QueryOrderIsTimelineOrder(rows: seq<AuditEvent>, source: Source)
    requires Sorted(rows, QueryKey) && forall e :: e in rows ==> e.source == source
    ensures Sorted(rows, TimelineKey)
  {
    if rows != [] {
      QueryOrderIsTimelineOrder(rows[1..], source);
      forall e | e in rows[1..] ensures LexLeq(TimelineKey(rows[0]), TimelineKey(e)) {
        QueryKeyParts(rows[0], e);
        TimelineKeyParts(rows[0], e);
        assert e in rows && rows[0] in rows;
      }
    }
  }

  lemma InjectiveKeys(rows: seq<AuditEvent>)
    ensures forall x, y :: x in rows && y in rows && TimelineKey(x) == TimelineKey(y) ==> x == y
  {
    forall x, y | x in rows && y in rows && TimelineKey(x) == TimelineKey(y) ensures x == y {
      TimelineKeyInjective(x, y);
    }
  }

  /** A source's query is the head of that source's part of the timeline past the cursor. */
  lemma QueryIsPart(rows: seq<AuditEvent>, source: Source, all: seq<AuditEvent>, limit: nat, cursor: Option<Cursor>)
    requires forall e :: e in rows ==> e.source == source
    requires Sorted(all, TimelineKey)
    requires PartCounts(rows, source, all, cursor)
    ensures Query(rows, limit, cursor) == Take(OfSource(all, source), limit + 1)
  {
    var past := After(rows, cursor);
    var sorted := SortBy(past, QueryKey);
    SortByCorrect(past, QueryKey);
    forall e ensures multiset(sorted)[e] == multiset(OfSource(all, source))[e] {
      AfterMembers(rows, cursor, e);
    }
    forall e | e in sorted ensures e.source == source {
      assert e in multiset(sorted) && e in multiset(past);
      AfterMembers(rows, cursor, e);
      assert e in multiset(rows);
    }
    QueryOrderIsTimelineOrder(sorted, source);
    OfSourceSorted(all, source);
    InjectiveKeys(sorted);
    SortedUnique(sorted, OfSource(all, source), TimelineKey);
  }

  ghost predicate AtMostOnce(rows: seq<AuditEvent>) {
    forall e :: multiset(rows)[e] <= 1
  }

  ghost predicate PartOf(part: seq<AuditEvent>, all: seq<AuditEvent>) {
    forall e :: multiset(part)[e] <= multiset(all)[e]
  }

  lemma HeadsAgree(part: seq<AuditEvent>, all: seq<AuditEvent>)
    requires Sorted(part, TimelineKey) && Sorted(all, TimelineKey)
    requires PartOf(part, all) && all != [] && all[0] in part
    ensures part[0] == all[0]
  {
    assert part[0] in multiset(part);
    assert multiset(all)[part[0]] > 0;
    assert part[0] in multiset(all);
    SortedHeadLeast(part, all[0], TimelineKey);
    SortedHeadLeast(all, part[0], TimelineKey);
    LexAntisymmetric(TimelineKey(part[0]), TimelineKey(all[0]));
    TimelineKeyInjective(part[0], all[0]);
  }

  lemma TailsAgree(part: seq<AuditEvent>, all: seq<AuditEvent>, x: AuditEvent)
    requires part != [] && all != [] && part[0] == all[0]
    requires PartOf(part, all) && AtMostOnce(all)
    ensures PartOf(part[1..], all[1..]) && AtMostOnce(all[1..])
    ensures x in all[1..] && x in part ==> x in part[1..]
  {
    assert part == [part[0]] + part[1..] && all == [all[0]] + all[1..];
    forall e ensures multiset(part[1..])[e] <= multiset(all[1..])[e] <= 1 {
      assert multiset(part)[e] <= multiset(all)[e] <= 1;
    }
    if x in all[1..] {
      assert multiset(all)[x] <= 1;
      assert multiset(all[1..])[x] > 0;
    }
  }

  /** A sorted part of a sorted list that contains its first n elements starts with them. */
  lemma {:induction false} PrefixesAgree(part: seq<AuditEvent>, all: seq<AuditEvent>, n: nat)
    requires Sorted(part, TimelineKey) && Sorted(all, TimelineKey)
    requires PartOf(part, all) && AtMostOnce(all) && n <= |all|
    requires forall i :: 0 <= i < n ==> all[i] in part
    ensures n <= |part| && part[..n] == all[..n]
  {
    if n > 0 {
      HeadsAgree(part, all);
      TailsAgree(part, all, all[0]);
      forall i | 0 <= i < n - 1 ensures all[1..][i] in part[1..] {
        assert all[i + 1] in part;
        TailsAgree(part, all, all[i + 1]);
      }
      PrefixesAgree(part[1..], all[1..], n - 1);
      assert part[..n] == [part[0]] + part[1..][..n - 1];
      assert all[..n] == [all[0]] + all[1..][..n - 1];
    }
  }

  // ----- a page is the next slice of the timeline

  lemma TimelineMembers(runs: seq<AuditEvent>, workflow: seq<AuditEvent>, governance: seq<AuditEvent>, e: AuditEvent)
    requires ValidSources(runs, workflow, governance)
    ensures multiset(Timeline(runs, workflow, governance))[e]
         == multiset(runs)[e] + multiset(workflow)[e] + multiset(governance)[e]
    ensures multiset(Timeline(runs, workflow, governance))[e] <= 1
    ensures e.source == RunEvents ==> multiset(workflow)[e] == multiset(governance)[e] == 0
    ensures e.source == WorkflowEvents ==> multiset(runs)[e] == multiset(governance)[e] == 0
    ensures e.source == GovernanceEvents ==> multiset(runs)[e] == multiset(workflow)[e] == 0
  {
    SortByCorrect(runs + workflow + governance, TimelineKey);
    DistinctOnce(runs, e);
    DistinctOnce(workflow, e);
    DistinctOnce(governance, e);
    assert e !in runs ==> e !in multiset(runs);
    assert e !in workflow ==> e !in multiset(workflow);
    assert e !in governance ==> e !in multiset(governance);
  }

  /** How often an event occurs past the cursor, source by source. */
  lemma RestCounts(
      runs: seq<AuditEvent>, workflow: seq<AuditEvent>, governance: seq<AuditEvent>, cursor: Option<Cursor>,
      e: AuditEvent)
    requires ValidSources(runs, workflow, governance)
    ensures var rest := After(Timeline(runs, workflow, governance), cursor);
            var past := BeforeCursor(e, cursor);
            && multiset(rest)[e] <= 1
            && multiset(OfSource(rest, RunEvents))[e] == (if past then multiset(runs)[e] else 0)
            && multiset(OfSource(rest, WorkflowEvents))[e] == (if past then multiset(workflow)[e] else 0)
            && multiset(OfSource(rest, GovernanceEvents))[e] == (if past then multiset(governance)[e] else 0)
  {
    var timeline := Timeline(runs, workflow, governance);
    var rest := After(timeline, cursor);
    AfterMembers(timeline, cursor, e);
    TimelineMembers(runs, workflow, governance, e);
    OfSourceMembers(rest, RunEvents, e);
    OfSourceMembers(rest, WorkflowEvents, e);
    OfSourceMembers(rest, GovernanceEvents, e);
    SourceOfMember(runs, RunEvents, e);
    SourceOfMember(workflow, WorkflowEvents, e);
    SourceOfMember(governance, GovernanceEvents, e);
  }

  lemma SourceOfMember(rows: seq<AuditEvent>, source: Source, e: AuditEvent)
    requires forall e :: e in rows ==> e.source == source
    ensures multiset(rows)[e] > 0 ==> e.source == source
  {
    if multiset(rows)[e] > 0 {
      assert e in multiset(rows);
      assert e in rows;
    }
  }

  /** The source's rows past the cursor are that source's part of the list. */
  ghost predicate PartCounts(rows: seq<AuditEvent>, source: Source, rest: seq<AuditEvent>, cursor: Option<Cursor>) {
    forall e: AuditEvent ::
      multiset(OfSource(rest, source))[e] == if BeforeCursor(e, cursor) then multiset(rows)[e] else 0
  }

  lemma PartsCount(
      runs: seq<AuditEvent>, workflow: seq<AuditEvent>, governance: seq<AuditEvent>, cursor: Option<Cursor>)
    requires ValidSources(runs, workflow, governance)
    ensures var rest := After(Timeline(runs, workflow, governance), cursor);
            && AtMostOnce(rest)
            && PartCounts(runs, RunEvents, rest, cursor)
            && PartCounts(workflow, WorkflowEvents, rest, cursor)
            && PartCounts(governance, GovernanceEvents, rest, cursor)
  {
    var rest := After(Timeline(runs, workflow, governance), cursor);
    forall e: AuditEvent
      ensures multiset(rest)[e] <= 1
      ensures multiset(OfSource(rest, RunEvents))[e] == if BeforeCursor(e, cursor) then multiset(runs)[e] else 0
      ensures multiset(OfSource(rest, WorkflowEvents))[e]
           == if BeforeCursor(e, cursor) then multiset(workflow)[e] else 0
      ensures multiset(OfSource(rest, GovernanceEvents))[e]
           == if BeforeCursor(e, cursor) then multiset(governance)[e] else 0
    {
      RestCounts(runs, workflow, governance, cursor, e);
    }
  }

  /** The first limit+1 events past the cursor survive the truncation of their sources. */
  lemma MergedStartsTimeline(
      runs: seq<AuditEvent>, workflow: seq<AuditEvent>, governance: seq<AuditEvent>, limit: nat, cursor: Option<Cursor>)
    requires ValidSources(runs, workflow, governance)
    ensures var rest := After(Timeline(runs, workflow, governance), cursor);
            var merged := Merged(runs, workflow, governance, limit, cursor);
            Take(merged, limit + 1) == Take(rest, limit + 1)
  {
    var timeline := Timeline(runs, workflow, governance);
    var rest := After(timeline, cursor);
    SortByCorrect(runs + workflow + governance, TimelineKey);
    AfterSorted(timeline, cursor);
    PartsCount(runs, workflow, governance, cursor);
    QueryIsPart(runs, RunEvents, rest, limit, cursor);
    QueryIsPart(workflow, WorkflowEvents, rest, limit, cursor);
    QueryIsPart(governance, GovernanceEvents, rest, limit, cursor);
    MergedFromParts(
      rest, Query(runs, limit, cursor), Query(workflow, limit, cursor), Query(governance, limit, cursor), limit);
  }

  lemma TakeMembers(rows: seq<AuditEvent>, n: nat, e: AuditEvent)
    ensures multiset(Take(rows, n))[e] <= multiset(rows)[e]
  {
    if |rows| > n {
      assert rows == rows[..n] + rows[n..];
    }
  }

  lemma MergedIsPart(rest: seq<AuditEvent>, a: seq<AuditEvent>, b: seq<AuditEvent>, c: seq<AuditEvent>, n: nat)
    requires a == Take(OfSource(rest, RunEvents), n)
    requires b == Take(OfSource(rest, WorkflowEvents), n)
    requires c == Take(OfSource(rest, GovernanceEvents), n)
    ensures PartOf(SortBy(a + b + c, TimelineKey), rest)
  {
    SortByCorrect(a + b + c, TimelineKey);
    forall e ensures multiset(a + b + c)[e] <= multiset(rest)[e] {
      TakeMembers(OfSource(rest, RunEvents), n, e);
      TakeMembers(OfSource(rest, WorkflowEvents), n, e);
      TakeMembers(OfSource(rest, GovernanceEvents), n, e);
      OfSourceMembers(rest, RunEvents, e);
      OfSourceMembers(rest, WorkflowEvents, e);
      OfSourceMembers(rest, GovernanceEvents, e);
    }
  }

  lemma {:induction false} SurvivesTruncation(
      rest: seq<AuditEvent>, a: seq<AuditEvent>, b: seq<AuditEvent>, c: seq<AuditEvent>, n: nat, i: nat)
    requires a == Take(OfSource(rest, RunEvents), n)
    requires b == Take(OfSource(rest, WorkflowEvents), n)
    requires c == Take(OfSource(rest, GovernanceEvents), n)
    requires i < n && i < |rest|
    ensures rest[i] in SortBy(a + b + c, TimelineKey)
  {
    var m := if n <= |rest| then n else |rest|;
    var mine := OfSource(rest, rest[i].source);
    OfSourcePrefix(rest, rest[i].source, m, i);
    TakeGrows(mine, m, n, rest[i]);
    assert rest[i] in a || rest[i] in b || rest[i] in c;
    SortMembers(a + b + c, TimelineKey);
  }

  lemma TakeGrows(rows: seq<AuditEvent>, m: nat, n: nat, e: AuditEvent)
    requires m <= n && e in Take(rows, m)
    ensures e in Take(rows, n)
  {
    var i :| 0 <= i < |Take(rows, m)| && Take(rows, m)[i] == e;
    assert Take(rows, n)[i] == e;
  }

  /** The first n elements of `all` occur in `part`. */
  ghost predicate HeadWithin(all: seq<AuditEvent>, part: seq<AuditEvent>, n: nat) {
    forall i :: 0 <= i < n && i < |all| ==> all[i] in part
  }

  lemma HeadSurvives(rest: seq<AuditEvent>, a: seq<AuditEvent>, b: seq<AuditEvent>, c: seq<AuditEvent>, n: nat)
    requires a == Take(OfSource(rest, RunEvents), n)
    requires b == Take(OfSource(rest, WorkflowEvents), n)
    requires c == Take(OfSource(rest, GovernanceEvents), n)
    ensures HeadWithin(rest, SortBy(a + b + c, TimelineKey), n)
  {
    forall i | 0 <= i < n && i < |rest| ensures rest[i] in SortBy(a + b + c, TimelineKey) {
      SurvivesTruncation(rest, a, b, c, n, i);
    }
  }

  lemma MergedFromParts(
      rest: seq<AuditEvent>, a: seq<AuditEvent>, b: seq<AuditEvent>, c: seq<AuditEvent>, limit: nat)
    requires Sorted(rest, TimelineKey) && AtMostOnce(rest)
    requires a == Take(OfSource(rest, RunEvents), limit + 1)
    requires b == Take(OfSource(rest, WorkflowEvents), limit + 1)
    requires c == Take(OfSource(rest, GovernanceEvents), limit + 1)
    ensures Take(SortBy(a + b + c, TimelineKey), limit + 1) == Take(rest, limit + 1)
  {
    SortSorted(a + b + c, TimelineKey);
    MergedIsPart(rest, a, b, c, limit + 1);
    HeadSurvives(rest, a, b, c, limit + 1);
    SameHead(SortBy(a + b + c, TimelineKey), rest, limit + 1);
  }

  lemma SameHead(part: seq<AuditEvent>, all: seq<AuditEvent>, n: nat)
    requires Sorted(part, TimelineKey) && Sorted(all, TimelineKey)
    requires PartOf(part, all) && AtMostOnce(all) && HeadWithin(all, part, n)
    ensures Take(part, n) == Take(all, n)
  {
    PrefixesAgree(part, all, if |all| <= n then |all| else n);
    SubmultisetSize(multiset(part), multiset(all));
    assert |part| == |multiset(part)| && |all| == |multiset(all)|;
    assert all[..|all|] == all;
  }

  lemma SubmultisetSize(a: multiset<AuditEvent>, b: multiset<AuditEvent>)
    requires forall e :: a[e] <= b[e]
    ensures |a| <= |b|
  {
    assert b == a + (b - a);
  }

  /** A page holds exactly the next events of the timeline past the cursor, and has a successor
      exactly when more remain. */
  lemma PageIsSlice(
      runs: seq<AuditEvent>, workflow: seq<AuditEvent>, governance: seq<AuditEvent>, limit: nat, cursor: Option<Cursor>)
    requires ValidSources(runs, workflow, governance)
    ensures var rest := After(Timeline(runs, workflow, governance), cursor);
            var page := Audit(runs, workflow, governance, limit, cursor);
            && page.items == Take(rest, limit)
            && (page.next.Some? <==> |rest| > limit > 0)
            && (page.next.Some? ==> page.next.value == CursorOf(rest[limit - 1]))
  {
    MergedStartsTimeline(runs, workflow, governance, limit, cursor);
    var rest := After(Timeline(runs, workflow, governance), cursor);
    var merged := Merged(runs, workflow, governance, limit, cursor);
    assert Take(merged, limit) == Take(Take(merged, limit + 1), limit);
    assert Take(rest, limit) == Take(Take(rest, limit + 1), limit);
    assert |merged| > limit <==> |Take(merged, limit + 1)| > limit;
    assert |rest| > limit <==> |Take(rest, limit + 1)| > limit;
  }

  /** Past the last event of a slice lies exactly the rest of the list. */
  lemma {:induction false} AfterSlice(rows: seq<AuditEvent>, n: nat)
    requires Sorted(rows, TimelineKey) && 0 < n <= |rows| && AtMostOnce(rows)
    ensures After(rows, Some(CursorOf(rows[n - 1]))) == rows[n..]
  {
    var cursor := Some(CursorOf(rows[n - 1]));
    assert rows == rows[..n] + rows[n..];
    AfterConcat(rows[..n], rows[n..], cursor);
    forall i | 0 <= i < n ensures !BeforeCursor(rows[..n][i], cursor) {
      BeforeCursorMeaning(rows[i], rows[n - 1]);
      if i < n - 1 {
        SortedPairs(rows, TimelineKey, i, n - 1);
        if LexLeq(TimelineKey(rows[n - 1]), TimelineKey(rows[i])) {
          LexAntisymmetric(TimelineKey(rows[i]), TimelineKey(rows[n - 1]));
        }
      }
    }
    NoneAfter(rows[..n], cursor);
    forall j | 0 <= j < |rows[n..]| ensures BeforeCursor(rows[n..][j], cursor) {
      SortedPairs(rows, TimelineKey, n - 1, n + j);
      BeforeCursorMeaning(rows[n + j], rows[n - 1]);
      if TimelineKey(rows[n - 1]) == TimelineKey(rows[n + j]) {
        TimelineKeyInjective(rows[n - 1], rows[n + j]);
        OccursTwice(rows, n - 1, n + j);
      }
    }
    AllAfter(rows[n..], cursor);
  }

  lemma {:induction false} NoneAfter(rows: seq<AuditEvent>, cursor: Option<Cursor>)
    requires forall i :: 0 <= i < |rows| ==> !BeforeCursor(rows[i], cursor)
    ensures After(rows, cursor) == []
  {
    if rows != [] {
      NoneAfter(rows[1..], cursor);
    }
  }

  lemma {:induction false} AllAfter(rows: seq<AuditEvent>, cursor: Option<Cursor>)
    requires forall i :: 0 <= i < |rows| ==> BeforeCursor(rows[i], cursor)
    ensures After(rows, cursor) == rows
  {
    if rows != [] {
      AllAfter(rows[1..], cursor);
    }
  }

  // ----- following the cursors

  /** The cursor after the first n events of the timeline. */
  function CursorAt(timeline: seq<AuditEvent>, n: nat): Option<Cursor>
    requires n <= |timeline|
  {
    if n == 0 then None else Some(CursorOf(timeline[n - 1]))
  }

  lemma RestAt(runs: seq<AuditEvent>, workflow: seq<AuditEvent>, governance: seq<AuditEvent>, n: nat)
    requires ValidSources(runs, workflow, governance) && n <= |Timeline(runs, workflow, governance)|
    ensures var timeline := Timeline(runs, workflow, governance);
            After(timeline, CursorAt(timeline, n)) == timeline[n..]
  {
    var timeline := Timeline(runs, workflow, governance);
    SortByCorrect(runs + workflow + governance, TimelineKey);
    if n == 0 {
      AllAfter(timeline, None);
    } else {
      forall e ensures multiset(timeline)[e] <= 1 {
        TimelineMembers(runs, workflow, governance, e);
      }
      AfterSlice(timeline, n);
    }
  }

  /** What a client collects by following `next_cursor` for at most so many requests, and whether
      it reached the end. */
  function Collect(fetch: Option<Cursor> -> Page, cursor: Option<Cursor>, requests: nat): (seq<AuditEvent>, bool)
    decreases requests
  {
    if requests == 0 then ([], false)
    else
      var page := fetch(cursor);
      if page.next.None? then (page.items, true)
      else
        var (more, done) := Collect(fetch, page.next, requests - 1);
        (page.items + more, done)
  }

  /** The page that starts after n events of a list, and leads on to the next one. */
  function Slice(timeline: seq<AuditEvent>, limit: nat, n: nat): Page
    requires n <= |timeline|
  {
    if |timeline| <= n + limit then Page(timeline[n..], None)
    else Page(timeline[n..n + limit], CursorAt(timeline, n + limit))
  }

  /** Requests answer with the slices of the timeline. */
  ghost predicate Serves(fetch: Option<Cursor> -> Page, timeline: seq<AuditEvent>, limit: nat) {
    forall m: nat :: ServesAt(fetch, timeline, limit, m)
  }

  ghost predicate ServesAt(fetch: Option<Cursor> -> Page, timeline: seq<AuditEvent>, limit: nat, m: nat) {
    m <= |timeline| ==> fetch(CursorAt(timeline, m)) == Slice(timeline, limit, m)
  }

  lemma {:induction false} CollectSlices(
      fetch: Option<Cursor> -> Page, timeline: seq<AuditEvent>, limit: nat, n: nat, requests: nat)
    requires limit > 0 && n <= |timeline| < n + requests
    requires Serves(fetch, timeline, limit)
    ensures Collect(fetch, CursorAt(timeline, n), requests) == (timeline[n..], true)
    decreases requests
  {
    var page := fetch(CursorAt(timeline, n));
    assert ServesAt(fetch, timeline, limit, n);
    if |timeline| > n + limit {
      assert page.next == CursorAt(timeline, n + limit);
      CollectSlices(fetch, timeline, limit, n + limit, requests - 1);
      assert Collect(fetch, CursorAt(timeline, n), requests) == (page.items + timeline[n + limit..], true);
      assert timeline[n..] == timeline[n..n + limit] + timeline[n + limit..];
    }
  }

  lemma NextSlice(timeline: seq<AuditEvent>, limit: nat, n: nat, page: Page)
    requires limit > 0 && n <= |timeline| && page.items == Take(timeline[n..], limit)
    requires page.next.Some? <==> |timeline[n..]| > limit
    requires page.next.Some? ==> page.next.value == CursorOf(timeline[n..][limit - 1])
    ensures page == Slice(timeline, limit, n)
  {
    if |timeline| > n + limit {
      assert timeline[n..][..limit] == timeline[n..n + limit];
      assert timeline[n..][limit - 1] == timeline[n + limit - 1];
    }
  }

  /** The page requested after the first n events of the timeline. */
  lemma PageAt(runs: seq<AuditEvent>, workflow: seq<AuditEvent>, governance: seq<AuditEvent>, limit: nat, n: nat)
    requires ValidSources(runs, workflow, governance) && limit > 0
    requires n <= |Timeline(runs, workflow, governance)|
    ensures var timeline := Timeline(runs, workflow, governance);
            Audit(runs, workflow, governance, limit, CursorAt(timeline, n)) == Slice(timeline, limit, n)
  {
    RestAt(runs, workflow, governance, n);
    var timeline := Timeline(runs, workflow, governance);
    PageIsSlice(runs, workflow, governance, limit, CursorAt(timeline, n));
    NextSlice(timeline, limit, n, Audit(runs, workflow, governance, limit, CursorAt(timeline, n)));
  }

  ghost predicate Newer(a: AuditEvent, b: AuditEvent) {
    || a.createdAt > b.createdAt
    || (a.createdAt == b.createdAt
        && (Rank(a.source) > Rank(b.source) || (a.source == b.source && a.id > b.id)))
  }

  ghost predicate StrictlyDescending(rows: seq<AuditEvent>) {
    forall i, j :: 0 <= i < j < |rows| ==> Newer(rows[i], rows[j])
  }

  lemma TimelineDescends(
      runs: seq<AuditEvent>, workflow: seq<AuditEvent>, governance: seq<AuditEvent>)
    requires ValidSources(runs, workflow, governance)
    ensures StrictlyDescending(Timeline(runs, workflow, governance))
  {
    var timeline := Timeline(runs, workflow, governance);
    SortByCorrect(runs + workflow + governance, TimelineKey);
    forall i, j | 0 <= i < j < |timeline| ensures Newer(timeline[i], timeline[j]) {
      SortedPairs(timeline, TimelineKey, i, j);
      TimelineKeyParts(timeline[i], timeline[j]);
      TimelineMembers(runs, workflow, governance, timeline[i]);
      if timeline[i] == timeline[j] {
        OccursTwice(timeline, i, j);
      }
    }
  }

  lemma TimelineSize(runs: seq<AuditEvent>, workflow: seq<AuditEvent>, governance: seq<AuditEvent>)
    ensures var timeline := Timeline(runs, workflow, governance);
            && |timeline| == |runs| + |workflow| + |governance|
            && multiset(timeline) == multiset(runs) + multiset(workflow) + multiset(governance)
  {
    SortByCorrect(runs + workflow + governance, TimelineKey);
  }

  /** Requests answer with the audit pages of these events. */
  ghost predicate Answers(
    fetch: Option<Cursor> -> Page, runs: seq<AuditEvent>, workflow: seq<AuditEvent>, governance: seq<AuditEvent>,
    limit: nat)
  {
    forall cursor :: fetch(cursor) == Audit(runs, workflow, governance, limit, cursor)
  }

  lemma PagesServe(
      fetch: Option<Cursor> -> Page, runs: seq<AuditEvent>, workflow: seq<AuditEvent>, governance: seq<AuditEvent>,
      limit: nat)
    requires ValidSources(runs, workflow, governance) && limit > 0
    requires Answers(fetch, runs, workflow, governance, limit)
    ensures Serves(fetch, Timeline(runs, workflow, governance), limit)
  {
    var timeline := Timeline(runs, workflow, governance);
    forall m: nat ensures ServesAt(fetch, timeline, limit, m) {
      if m <= |timeline| {
        PageAt(runs, workflow, governance, limit, m);
      }
    }
  }

  lemma SlicesCollect(fetch: Option<Cursor> -> Page, timeline: seq<AuditEvent>, limit: nat)
    requires limit > 0 && Serves(fetch, timeline, limit)
    ensures Collect(fetch, None, |timeline| + 1) == (timeline, true)
  {
    CollectSlices(fetch, timeline, limit, 0, |timeline| + 1);
    assert timeline[0..] == timeline;
  }

  /** Following the cursors over a fixed event set terminates and yields every run, workflow and
      governance event exactly once, in strictly descending (time, rank, id) order. */
  lemma {:induction false} PagingVisitsEverything(
      runs: seq<AuditEvent>, workflow: seq<AuditEvent>, governance: seq<AuditEvent>, limit: nat)
    requires ValidSources(runs, workflow, governance) && limit > 0
    ensures var fetch := cursor => Audit(runs, workflow, governance, limit, cursor);
            var (collected, done) := Collect(fetch, None, |runs| + |workflow| + |governance| + 1);
            && done
            && multiset(collected) == multiset(runs) + multiset(workflow) + multiset(governance)
            && StrictlyDescending(collected)
  {
    var fetch := cursor => Audit(runs, workflow, governance, limit, cursor);
    var timeline := Timeline(runs, workflow, governance);
    PagesServe(fetch, runs, workflow, governance, limit);
    SlicesCollect(fetch, timeline, limit);
    TimelineSize(runs, workflow, governance);
    TimelineDescends(runs, workflow, governance);
  }

  // ----- events that arrive while a client is paging

  /** The stored events of the three sources at one moment. */
  datatype Sources = Sources(runs: seq<AuditEvent>, workflow: seq<AuditEvent>, governance: seq<AuditEvent>) {
    ghost predicate Valid() {
      ValidSources(runs, workflow, governance)
    }

    function All(): seq<AuditEvent> {
      Timeline(runs, workflow, governance)
    }

    function PageFrom(limit: nat, cursor: Option<Cursor>): Page {
      Audit(runs, workflow, governance, limit, cursor)
    }
  }

  /** The later events are the earlier ones and newer ones. */
  ghost predicate OnlyNewer(before: Sources, after: Sources) {
    forall e: AuditEvent ::
      || multiset(after.All())[e] == multiset(before.All())[e]
      || (multiset(before.All())[e] == 0 && forall x :: x in before.All() ==> Newer(e, x))
  }

  lemma NewerIsNotPast(e: AuditEvent, x: AuditEvent)
    requires Newer(e, x)
    ensures !BeforeCursor(e, Some(CursorOf(x)))
  {
  }

  /** Past the cursor of an earlier event nothing has changed. */
  lemma SameRest(before: Sources, after: Sources, n: nat)
    requires before.Valid() && after.Valid() && OnlyNewer(before, after) && 0 < n <= |before.All()|
    ensures After(after.All(), CursorAt(before.All(), n)) == before.All()[n..]
  {
    var cursor := CursorAt(before.All(), n);
    var past, now := After(before.All(), cursor), After(after.All(), cursor);
    RestAt(before.runs, before.workflow, before.governance, n);
    forall e ensures multiset(now)[e] == multiset(past)[e] {
      AfterMembers(before.All(), cursor, e);
      AfterMembers(after.All(), cursor, e);
      if multiset(after.All())[e] != multiset(before.All())[e] {
        assert before.All()[n - 1] in before.All();
        NewerIsNotPast(e, before.All()[n - 1]);
      }
    }
    SortSorted(before.runs + before.workflow + before.governance, TimelineKey);
    SortSorted(after.runs + after.workflow + after.governance, TimelineKey);
    AfterSorted(before.All(), cursor);
    AfterSorted(after.All(), cursor);
    InjectiveKeys(now);
    SortedUnique(now, past, TimelineKey);
  }

  /** So a later page is the slice of the timeline it would have been. */
  lemma LaterPage(before: Sources, after: Sources, limit: nat, n: nat)
    requires before.Valid() && after.Valid() && OnlyNewer(before, after)
    requires limit > 0 && 0 < n <= |before.All()|
    ensures after.PageFrom(limit, CursorAt(before.All(), n)) == Slice(before.All(), limit, n)
  {
    var timeline := before.All();
    SameRest(before, after, n);
    PageIsSlice(after.runs, after.workflow, after.governance, limit, CursorAt(timeline, n));
    NextSlice(timeline, limit, n, after.PageFrom(limit, CursorAt(timeline, n)));
  }

  /** What a client collects when each request is answered by the next of these. */
  function CollectFrom(fetches: seq<Option<Cursor> -> Page>, cursor: Option<Cursor>): (seq<AuditEvent>, bool)
    decreases |fetches|
  {
    if fetches == [] then ([], false)
    else
      var page := fetches[0](cursor);
      if page.next.None? then (page.items, true)
      else
        var (more, done) := CollectFrom(fetches[1..], page.next);
        (page.items + more, done)
  }

  /** After its first page, the timeline's slices are served by every later request. */
  ghost predicate ServesOn(fetch: Option<Cursor> -> Page, timeline: seq<AuditEvent>, limit: nat) {
    forall m: nat :: m > 0 ==> ServesAt(fetch, timeline, limit, m)
  }

  lemma {:induction false} CollectRest(
      fetches: seq<Option<Cursor> -> Page>, timeline: seq<AuditEvent>, limit: nat, n: nat)
    requires limit > 0 && n <= |timeline| < n + |fetches|
    requires ServesAt(fetches[0], timeline, limit, n)
    requires forall k :: 0 < k < |fetches| ==> ServesOn(fetches[k], timeline, limit)
    ensures CollectFrom(fetches, CursorAt(timeline, n)) == (timeline[n..], true)
    decreases |fetches|
  {
    var page := fetches[0](CursorAt(timeline, n));
    if |timeline| > n + limit {
      assert page.next == CursorAt(timeline, n + limit);
      assert ServesOn(fetches[1], timeline, limit);
      assert ServesAt(fetches[1], timeline, limit, n + limit);
      CollectRest(fetches[1..], timeline, limit, n + limit);
      assert CollectFrom(fetches, CursorAt(timeline, n)) == (page.items + timeline[n + limit..], true);
      assert timeline[n..] == timeline[n..n + limit] + timeline[n + limit..];
    }
  }

  /** The request that finds the sources as they are at one moment. */
  function FetchAt(moment: Sources, limit: nat): Option<Cursor> -> Page {
    cursor => moment.PageFrom(limit, cursor)
  }

  function Fetches(moments: seq<Sources>, limit: nat): (fetches: seq<Option<Cursor> -> Page>)
    ensures |fetches| == |moments|
    ensures forall k :: 0 <= k < |moments| ==> fetches[k] == FetchAt(moments[k], limit)
  {
    seq(|moments|, k requires 0 <= k < |moments| => FetchAt(moments[k], limit))
  }

  lemma MomentServes(start: Sources, moment: Sources, limit: nat)
    requires start.Valid() && moment.Valid() && OnlyNewer(start, moment) && limit > 0
    ensures ServesOn(FetchAt(moment, limit), start.All(), limit)
  {
    forall m: nat | m > 0 ensures ServesAt(FetchAt(moment, limit), start.All(), limit, m) {
      if m <= |start.All()| {
        LaterPage(start, moment, limit, m);
      }
    }
  }

  lemma StartServes(start: Sources, limit: nat)
    requires start.Valid() && limit > 0
    ensures ServesAt(FetchAt(start, limit), start.All(), limit, 0)
  {
    PageAt(start.runs, start.workflow, start.governance, limit, 0);
  }

  /** Newer events may arrive between any two requests: a client that starts at the first moment
      still collects every event there was then, once, in descending order, and nothing else. */
  lemma {:induction false} PagingIgnoresArrivals(moments: seq<Sources>, limit: nat)
    requires limit > 0 && moments != [] && |moments[0].All()| < |moments|
    requires forall k :: 0 <= k < |moments| ==> moments[k].Valid() && OnlyNewer(moments[0], moments[k])
    ensures CollectFrom(Fetches(moments, limit), None) == (moments[0].All(), true)
    ensures StrictlyDescending(moments[0].All())
    ensures multiset(moments[0].All())
         == multiset(moments[0].runs) + multiset(moments[0].workflow) + multiset(moments[0].governance)
  {
    var start, fetches := moments[0], Fetches(moments, limit);
    StartServes(start, limit);
    forall k | 0 < k < |fetches| ensures ServesOn(fetches[k], start.All(), limit) {
      MomentServes(start, moments[k], limit);
    }
    CollectRest(fetches, start.All(), limit, 0);
    assert start.All()[0..] == start.All();
    TimelineDescends(start.runs, start.workflow, start.governance);
    TimelineSize(start.runs, start.workflow, start.governance);
  }
}
