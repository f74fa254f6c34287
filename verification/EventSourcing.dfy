/** The event log alone tells every finding's state, past and present. */
module EventSourcing {
  import opened Prelude
  import opened Workflow

  /** What one event says about the finding it belongs to. */
  function Replayed(f: Finding, e: Event): Finding {
    match (e.kind, e.details)
    case (FieldChanged(field), FieldChange(_, newVersion, _, next)) =>
      Set(f, field, next).(version := newVersion)
    case (StatusChanged, StatusChange(_, newVersion, _, to)) =>
      f.(status := to, version := newVersion)
    case (FindingResolved, StatusChange(_, newVersion, _, to)) =>
      f.(status := to, version := newVersion,
         resolvedAt := Some(e.createdAt), resolvedBy := Some(e.actor), resolutionNote := e.message)
    case (Reopened, StatusChange(_, newVersion, _, to)) =>
      f.(status := to, version := newVersion, resolvedAt := None, resolvedBy := None, resolutionNote := None)
    case _ => f
  }

  /** A finding rebuilt from nothing but its events. */
  function Replay(events: seq<Event>, id: Id): Finding {
    if events == [] then NEW
    else
      var n := |events| - 1;
      var earlier := Replay(events[..n], id);
      if events[n].finding == id then Replayed(earlier, events[n]) else earlier
  }

  ghost predicate Versioned(e: Event) {
    !e.details.Nothing?
  }

  /** The finding's events that carry versions. */
  ghost function Trail(events: seq<Event>, id: Id): seq<Event> {
    if events == [] then []
    else
      var n := |events| - 1;
      var earlier := Trail(events[..n], id);
      if events[n].finding == id && Versioned(events[n]) then earlier + [events[n]] else earlier
  }

  function Rank(kind: Kind): nat {
    if kind.FieldChanged? then (match kind.field case Assignee => 1 case DueAt => 2 case ReminderAt => 3) else 0
  }

  /** The next version's first event, or one more field changed by the same call. */
  ghost predicate Continues(e: Event, next: Event)
    requires Versioned(e) && Versioned(next)
  {
    || next.details.previousVersion == e.details.newVersion
    || (&& e.details.FieldChange? && next.details.FieldChange?
        && next.details.previousVersion == e.details.previousVersion
        && next.actor == e.actor && next.createdAt == e.createdAt
        && Rank(e.kind) < Rank(next.kind))
  }

  /** Every version from the first to `version` has its events, with no gap between them. */
  ghost predicate GapFree(trail: seq<Event>, version: nat) {
    && (forall i :: 0 <= i < |trail| ==> Versioned(trail[i]))
    && (forall i :: 0 <= i < |trail| ==> trail[i].details.newVersion == trail[i].details.previousVersion + 1)
    && (forall i :: 0 < i < |trail| ==> Continues(trail[i - 1], trail[i]))
    && (trail == [] ==> version == 1)
    && (trail != [] ==> trail[0].details.previousVersion == 1 && trail[|trail| - 1].details.newVersion == version)
  }

  /** An event tells the truth about the finding as it was rebuilt so far. */
  ghost predicate Truthful(f: Finding, e: Event) {
    match e.kind
    case CommentAdded => e.details.Nothing? && e.message.Some?
    case FieldChanged(field) =>
      e.message.None? && e.details.FieldChange? && e.details.previous == Get(f, field) != e.details.next
    case _ =>
      && e.details.StatusChange? && e.details.from == f.status && e.details.to in Targets(f.status)
      && (e.kind.FindingResolved? <==> e.details.to == Resolved)
      && (e.kind.Reopened? <==> f.status == Resolved)
      && (e.message.Some? <==> e.details.to == Resolved)
  }

  ghost predicate AllTruthful(events: seq<Event>, id: Id) {
    forall i :: 0 <= i < |events| && events[i].finding == id ==> Truthful(Replay(events[..i], id), events[i])
  }

  /** The resolution's time, author and note are present exactly on resolved findings. */
  predicate ResolutionState(f: Finding) {
    if f.status == Resolved then f.resolvedAt.Some? && f.resolvedBy.Some? && f.resolutionNote.Some?
    else f.resolvedAt.None? && f.resolvedBy.None? && f.resolutionNote.None?
  }

  /** The log and the stored finding agree. */
  ghost predicate Recorded(f: Finding, events: seq<Event>, id: Id) {
    && Replay(events, id) == f
    && GapFree(Trail(events, id), f.version)
    && AllTruthful(events, id)
    && ResolutionState(f)
  }

  ghost predicate AllRecorded(s: State) {
    forall id :: id in s.findings ==> Recorded(s.findings[id], s.events, id)
  }

  // ----- one more event

  lemma AppendOther(events: seq<Event>, e: Event, id: Id)
    requires e.finding != id
    ensures Replay(events + [e], id) == Replay(events, id)
    ensures Trail(events + [e], id) == Trail(events, id)
    ensures AllTruthful(events, id) ==> AllTruthful(events + [e], id)
  {
    assert (events + [e])[..|events|] == events;
    forall i | 0 <= i < |events| ensures (events + [e])[..i] == events[..i] {
    }
  }

  lemma AppendOwn(events: seq<Event>, e: Event, id: Id)
    requires e.finding == id
    ensures Replay(events + [e], id) == Replayed(Replay(events, id), e)
    ensures Trail(events + [e], id) == Trail(events, id) + if Versioned(e) then [e] else []
    ensures AllTruthful(events, id) && Truthful(Replay(events, id), e) ==> AllTruthful(events + [e], id)
  {
    assert (events + [e])[..|events|] == events;
    forall i | 0 <= i < |events| ensures (events + [e])[..i] == events[..i] {
    }
  }

  lemma {:induction false} AppendOthers(events: seq<Event>, more: seq<Event>, id: Id)
    requires forall i :: 0 <= i < |more| ==> more[i].finding != id
    ensures Replay(events + more, id) == Replay(events, id)
    ensures Trail(events + more, id) == Trail(events, id)
    ensures AllTruthful(events, id) ==> AllTruthful(events + more, id)
  {
    if more == [] {
      assert events + more == events;
    } else {
      var n := |more| - 1;
      AppendOthers(events, more[..n], id);
      AppendOther(events + more[..n], more[n], id);
      assert events + more[..n] + [more[n]] == events + more;
    }
  }

  lemma {:induction false} EventsOfFinding(f: Finding, c: Call, fields: seq<Field>)
    requires c.Manage?
    ensures forall i :: 0 <= i < |FieldEvents(f, c, fields)| ==> FieldEvents(f, c, fields)[i].finding == c.finding
  {
    if fields != [] {
      EventsOfFinding(f, c, fields[..|fields| - 1]);
    }
  }

  lemma GapFreeSnoc(trail: seq<Event>, version: nat, e: Event)
    requires GapFree(trail, version) && Versioned(e)
    requires e.details.newVersion == e.details.previousVersion + 1
    requires trail == [] ==> e.details.previousVersion == 1
    requires trail != [] ==> Continues(trail[|trail| - 1], e)
    ensures GapFree(trail + [e], e.details.newVersion)
  {
  }

  // ----- one call

  lemma {:induction false} SetAllKeeps(f: Finding, changes: map<Field, Option<int>>, fields: seq<Field>, field: Field)
    requires field !in fields
    ensures Get(SetAll(f, changes, fields), field) == Get(f, field)
  {
    if fields != [] {
      SetAllKeeps(f, changes, fields[..|fields| - 1], field);
    }
  }

  lemma {:induction false} SetAllElsewhere(f: Finding, changes: map<Field, Option<int>>, fields: seq<Field>)
    ensures var g := SetAll(f, changes, fields);
            g == f.(assignee := g.assignee, dueAt := g.dueAt, reminderAt := g.reminderAt)
  {
    if fields != [] {
      SetAllElsewhere(f, changes, fields[..|fields| - 1]);
    }
  }

  ghost predicate Untouched(changes: map<Field, Option<int>>, fields: seq<Field>) {
    forall i :: 0 <= i < |fields| ==> fields[i] !in changes
  }

  /** The trail ends with an event of this call about one of these fields. */
  ghost predicate EndsWith(trail: seq<Event>, c: Call, fields: seq<Field>)
    requires c.Manage?
  {
    && trail != []
    && var e := trail[|trail| - 1];
       && e.details.FieldChange? && e.details.previousVersion == c.expected
       && e.actor == c.actor && e.createdAt == c.now
       && e.kind.FieldChanged? && e.kind.field in fields
  }

  /** The finding `g` and its log `all` after the events of the changed ones among these fields. */
  ghost predicate Managed(
    f: Finding, events: seq<Event>, c: Call, fields: seq<Field>, all: seq<Event>, g: Finding)
    requires c.Manage?
  {
    && AllTruthful(all, c.finding)
    && if Untouched(Effective(f, c.changes), fields) then all == events && g == f
       else
         && Replay(all, c.finding) == g.(version := f.version + 1)
         && GapFree(Trail(all, c.finding), f.version + 1)
         && EndsWith(Trail(all, c.finding), c, fields)
  }

  /** The event of a changed field is truthful and goes on from the trail so far. */
  lemma {:induction false} OneField(f: Finding, all: seq<Event>, c: Call, field: Field, version: nat)
    requires c.Manage? && c.expected == f.version && field in Effective(f, c.changes)
    requires AllTruthful(all, c.finding) && GapFree(Trail(all, c.finding), version)
    requires Get(Replay(all, c.finding), field) == Get(f, field)
    requires Trail(all, c.finding) == [] ==> f.version == 1
    requires Trail(all, c.finding) != [] ==>
      Continues(Trail(all, c.finding)[|Trail(all, c.finding)| - 1], FieldEvent(f, c, field))
    ensures var e := FieldEvent(f, c, field);
            && AllTruthful(all + [e], c.finding)
            && Replay(all + [e], c.finding)
               == Set(Replay(all, c.finding), field, c.changes[field]).(version := f.version + 1)
            && GapFree(Trail(all + [e], c.finding), f.version + 1)
            && Trail(all + [e], c.finding) == Trail(all, c.finding) + [e]
  {
    var e, g, trail := FieldEvent(f, c, field), Replay(all, c.finding), Trail(all, c.finding);
    FieldEventTold(f, g, c, field);
    GapFreeSnoc(trail, version, e);
    AppendOwn(all, e, c.finding);
  }

  lemma FieldEventTold(f: Finding, g: Finding, c: Call, field: Field)
    requires c.Manage? && c.expected == f.version && field in Effective(f, c.changes) && Get(g, field) == Get(f, field)
    ensures var e := FieldEvent(f, c, field);
            && Versioned(e) && e.finding == c.finding && Truthful(g, e)
            && e.details.previousVersion == f.version && e.details.newVersion == f.version + 1
            && Replayed(g, e) == Set(g, field, c.changes[field]).(version := f.version + 1)
  {
  }

  lemma TouchedBy(changes: map<Field, Option<int>>, fields: seq<Field>, field: Field)
    ensures Untouched(changes, fields + [field]) <==> Untouched(changes, fields) && field !in changes
  {
    var more := fields + [field];
    assert more[|fields|] == field;
    assert forall i :: 0 <= i < |fields| ==> more[i] == fields[i];
  }

  /** The first changed field. */
  lemma FirstField(f: Finding, events: seq<Event>, c: Call, fields: seq<Field>, field: Field)
    requires c.Manage? && c.expected == f.version && Recorded(f, events, c.finding)
    requires Untouched(Effective(f, c.changes), fields) && field in Effective(f, c.changes)
    ensures Managed(f, events, c, fields + [field], events + [FieldEvent(f, c, field)],
                    Set(f, field, c.changes[field]))
  {
    TouchedBy(Effective(f, c.changes), fields, field);
    OneField(f, events, c, field, f.version);
  }

  /** One more changed field. */
  lemma LaterField(
      f: Finding, events: seq<Event>, c: Call, fields: seq<Field>, field: Field, all: seq<Event>, g: Finding)
    requires c.Manage? && c.expected == f.version && Managed(f, events, c, fields, all, g)
    requires !Untouched(Effective(f, c.changes), fields) && field in Effective(f, c.changes)
    requires Get(g, field) == Get(f, field)
    requires forall i :: 0 <= i < |fields| ==> Rank(FieldChanged(fields[i])) < Rank(FieldChanged(field))
    ensures Managed(f, events, c, fields + [field], all + [FieldEvent(f, c, field)],
                    Set(g, field, c.changes[field]))
  {
    TouchedBy(Effective(f, c.changes), fields, field);
    OneField(f, all, c, field, f.version + 1);
  }

  lemma SkippedField(
      f: Finding, events: seq<Event>, c: Call, fields: seq<Field>, field: Field, all: seq<Event>, g: Finding)
    requires c.Manage? && Managed(f, events, c, fields, all, g) && field !in Effective(f, c.changes)
    ensures Managed(f, events, c, fields + [field], all, g)
  {
    TouchedBy(Effective(f, c.changes), fields, field);
  }

  lemma {:induction false} ManagedOne(f: Finding, events: seq<Event>, c: Call, fields: seq<Field>, field: Field)
    requires c.Manage? && c.expected == f.version && Recorded(f, events, c.finding)
    requires Managed(f, events, c, fields, events + FieldEvents(f, c, fields),
                     SetAll(f, Effective(f, c.changes), fields))
    requires field !in fields
    requires forall i :: 0 <= i < |fields| ==> Rank(FieldChanged(fields[i])) < Rank(FieldChanged(field))
    ensures var more := fields + [field];
            Managed(f, events, c, more, events + FieldEvents(f, c, more), SetAll(f, Effective(f, c.changes), more))
  {
    var changes, more := Effective(f, c.changes), fields + [field];
    var all, g := events + FieldEvents(f, c, fields), SetAll(f, changes, fields);
    assert more[..|fields|] == fields && more[|fields|] == field;
    if field in changes {
      var e := FieldEvent(f, c, field);
      assert events + FieldEvents(f, c, more) == all + [e];
      assert SetAll(f, changes, more) == Set(g, field, c.changes[field]);
      if Untouched(changes, fields) {
        FirstField(f, events, c, fields, field);
      } else {
        SetAllKeeps(f, changes, fields, field);
        LaterField(f, events, c, fields, field, all, g);
      }
    } else {
      assert FieldEvents(f, c, more) == FieldEvents(f, c, fields) && SetAll(f, changes, more) == g;
      SkippedField(f, events, c, fields, field, all, g);
    }
  }

  lemma {:induction false} ManagedAll(f: Finding, events: seq<Event>, c: Call, k: nat)
    requires c.Manage? && c.expected == f.version && Recorded(f, events, c.finding) && k <= |FIELDS|
    ensures var fields := FIELDS[..k];
            Managed(f, events, c, fields, events + FieldEvents(f, c, fields),
                    SetAll(f, Effective(f, c.changes), fields))
  {
    if k == 0 {
      assert events + FieldEvents(f, c, []) == events;
    } else {
      ManagedAll(f, events, c, k - 1);
      assert FIELDS[..k] == FIELDS[..k - 1] + [FIELDS[k - 1]];
      ManagedOne(f, events, c, FIELDS[..k - 1], FIELDS[k - 1]);
    }
  }

  /** Every field has its place among FIELDS. */
  lemma FieldIsListed(field: Field)
    ensures field in FIELDS
  {
    assert FIELDS[0] == Assignee && FIELDS[1] == DueAt && FIELDS[2] == ReminderAt;
  }

  lemma ManageRecorded(f: Finding, events: seq<Event>, c: Call)
    requires c.Manage? && Recorded(f, events, c.finding) && Refusal(f, c).None?
    ensures Recorded(Edited(f, c), events + EventsOf(f, c), c.finding)
  {
    ManagedAll(f, events, c, |FIELDS|);
    assert FIELDS[..|FIELDS|] == FIELDS;
    var changes := Effective(f, c.changes);
    var field := Pick(changes.Keys);
    FieldIsListed(field);
    assert !Untouched(changes, FIELDS);
    SetAllElsewhere(f, changes, FIELDS);
  }

  /** A status change is told truthfully, and its event repeats it. */
  lemma TransitionTold(f: Finding, c: Call)
    requires c.Transition? && Refusal(f, c).None? && ResolutionState(f)
    ensures |EventsOf(f, c)| == 1
    ensures var e := EventsOf(f, c)[0];
            && Truthful(f, e) && Replayed(f, e) == Edited(f, c) && e.finding == c.finding
            && e.details.StatusChange? && e.details.previousVersion == f.version
            && e.details.newVersion == f.version + 1 == Edited(f, c).version
    ensures ResolutionState(Edited(f, c))
  {
  }

  lemma StatusRecorded(f: Finding, events: seq<Event>, e: Event, g: Finding, id: Id)
    requires Recorded(f, events, id) && ResolutionState(g)
    requires Truthful(f, e) && Replayed(f, e) == g && e.finding == id
    requires e.details.StatusChange? && e.details.previousVersion == f.version
    requires e.details.newVersion == f.version + 1 == g.version
    ensures Recorded(g, events + [e], id)
  {
    AppendOwn(events, e, id);
    GapFreeSnoc(Trail(events, id), f.version, e);
  }

  lemma CommentRecorded(f: Finding, events: seq<Event>, c: Call)
    requires c.Comment? && Recorded(f, events, c.finding)
    ensures Recorded(Edited(f, c), events + EventsOf(f, c), c.finding)
  {
    var e := EventsOf(f, c)[0];
    assert EventsOf(f, c) == [e];
    AppendOwn(events, e, c.finding);
    assert Trail(events, c.finding) + [] == Trail(events, c.finding);
  }

  lemma EventsAreOwn(f: Finding, c: Call)
    ensures forall i :: 0 <= i < |EventsOf(f, c)| ==> EventsOf(f, c)[i].finding == c.finding
  {
    if c.Manage? {
      EventsOfFinding(f, c, FIELDS);
    }
  }

  lemma StepRecorded(s: State, c: Call)
    requires AllRecorded(s)
    ensures AllRecorded(Step(s, c).0)
  {
    if Step(s, c).1.Saved? {
      var f := s.findings[c.finding];
      match c {
        case Manage(_, _, _, _, _, _, _) => ManageRecorded(f, s.events, c);
        case Transition(_, _, _, _, _, _, _) =>
          TransitionTold(f, c);
          assert EventsOf(f, c) == [EventsOf(f, c)[0]];
          StatusRecorded(f, s.events, EventsOf(f, c)[0], Edited(f, c), c.finding);
        case Comment(_, _, _, _) => CommentRecorded(f, s.events, c);
      }
      EventsAreOwn(f, c);
      forall id | id in s.findings && id != c.finding
        ensures Recorded(s.findings[id], s.events + EventsOf(f, c), id)
      {
        AppendOthers(s.events, EventsOf(f, c), id);
      }
    }
  }

  // ----- whole runs

  /** After any sequence of accepted and rejected calls: replaying a finding's events gives its
      stored state, versions leave no gap, every event told the truth when it was written, and the
      resolution is present exactly on resolved findings. */
  lemma {:induction false} LogTellsAll(ids: set<Id>, calls: seq<Call>)
    ensures AllRecorded(Run(ids, calls))
  {
    if calls != [] {
      var n := |calls| - 1;
      LogTellsAll(ids, calls[..n]);
      StepRecorded(Run(ids, calls[..n]), calls[n]);
    }
  }

  /** A later state of the same findings. */
  ghost predicate Grown(s: State, s': State) {
    && s.events <= s'.events
    && s.findings.Keys == s'.findings.Keys
    && forall id :: id in s.findings ==> s.findings[id].version <= s'.findings[id].version
  }

  lemma StepGrows(s: State, c: Call)
    ensures Grown(s, Step(s, c).0)
  {
    if Step(s, c).1.Saved? {
      assert s.findings[c.finding].version <= Edited(s.findings[c.finding], c).version;
    }
  }

  lemma {:induction false} RunGrows(ids: set<Id>, calls: seq<Call>, k: nat)
    requires k <= |calls|
    ensures Grown(Run(ids, calls[..k]), Run(ids, calls))
    ensures Run(ids, calls).findings.Keys == ids
  {
    if calls == [] {
      assert calls[..k] == calls;
    } else {
      var n := |calls| - 1;
      StepGrows(Run(ids, calls[..n]), calls[n]);
      if k == |calls| {
        assert calls[..k] == calls;
        RunGrows(ids, calls[..n], n);
      } else {
        RunGrows(ids, calls[..n], k);
        assert calls[..n][..k] == calls[..k];
      }
    }
  }

  /** The log is append-only and its prefixes replay to every earlier state of every finding. */
  lemma EveryPastStateReplays(ids: set<Id>, calls: seq<Call>, k: nat, id: Id)
    requires k <= |calls| && id in ids
    ensures var past := Run(ids, calls[..k]);
            && id in past.findings && |past.events| <= |Run(ids, calls).events|
            && Replay(Run(ids, calls).events[..|past.events|], id) == past.findings[id]
  {
    RunGrows(ids, calls, k);
    LogTellsAll(ids, calls[..k]);
    var past, now := Run(ids, calls[..k]).events, Run(ids, calls).events;
    assert past == now[..|past|];
  }

  /** Call i of the run was a versioned edit of this finding that succeeded. */
  ghost predicate Edits(ids: set<Id>, calls: seq<Call>, i: nat, id: Id)
    requires i < |calls|
  {
    && !calls[i].Comment? && calls[i].finding == id
    && Step(Run(ids, calls[..i]), calls[i]).1.Saved?
  }

  lemma EditRaisesVersion(s: State, c: Call)
    requires !c.Comment? && Step(s, c).1.Saved?
    ensures s.findings[c.finding].version == c.expected
    ensures Step(s, c).0.findings[c.finding].version == c.expected + 1
  {
  }

  /** Two edits of a finding that both succeed expect different versions, the later one the
      higher: no expected version succeeds twice. */
  lemma NoVersionSucceedsTwice(ids: set<Id>, calls: seq<Call>, i: nat, j: nat, id: Id)
    requires i < j < |calls| && Edits(ids, calls, i, id) && Edits(ids, calls, j, id)
    ensures calls[i].expected < calls[j].expected
  {
    var before, after := Run(ids, calls[..i]), Run(ids, calls[..i + 1]);
    assert calls[..i + 1][..i] == calls[..i];
    assert after == Step(before, calls[i]).0;
    EditRaisesVersion(before, calls[i]);
    RunGrows(ids, calls[..j], i + 1);
    assert calls[..j][..i + 1] == calls[..i + 1];
  }
}
