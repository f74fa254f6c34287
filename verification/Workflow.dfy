/** Findings are worked on through versioned edits; every edit leaves events behind. */
module Workflow {
  import opened Prelude
  import opened Policy

  type Id = int

  datatype Status = Open | InReview | Resolved

  datatype Field = Assignee | DueAt | ReminderAt

  const FIELDS := [Assignee, DueAt, ReminderAt]

  datatype Finding = Finding(
    status: Status,
    assignee: Option<Id>,
    dueAt: Option<int>,
    reminderAt: Option<int>,
    resolvedAt: Option<int>,
    resolvedBy: Option<Id>,
    resolutionNote: Option<string>,
    version: nat)

  /** A finding as it is stored when its analysis run is saved. */
  const NEW := Finding(Open, None, None, None, None, None, None, 1)

  datatype Kind = CommentAdded | FieldChanged(field: Field) | StatusChanged | FindingResolved | Reopened

  datatype Details =
    | Nothing
    | FieldChange(previousVersion: nat, newVersion: nat, previous: Option<int>, next: Option<int>)
    | StatusChange(previousVersion: nat, newVersion: nat, from: Status, to: Status)

  datatype Event = Event(
    finding: Id, actor: Id, createdAt: int, kind: Kind, message: Option<string>, details: Details)

  datatype State = State(findings: map<Id, Finding>, events: seq<Event>)

  datatype Error =
    | UnsupportedFields
    | NotFound
    | Forbidden
    | VersionConflict
    | MemberNotFound
    | NoChange
    | InvalidTransition
    | InvalidResolution

  datatype Outcome = Saved | Rejected(error: Error)

  /** `role` and `members` are what the service reads after locking the finding. */
  datatype Call =
    | Manage(finding: Id, actor: Id, now: int, role: Option<Role>, expected: nat,
             changes: map<Field, Option<int>>, members: set<Id>)
    | Transition(finding: Id, actor: Id, now: int, role: Option<Role>, expected: nat,
                 target: Status, note: Option<string>)
    | Comment(finding: Id, actor: Id, now: int, message: string)

  function Targets(status: Status): set<Status> {
    match status
    case Open => {InReview, Resolved}
    case InReview => {Resolved}
    case Resolved => {Open}
  }

  function Get(f: Finding, field: Field): Option<int> {
    match field
    case Assignee => f.assignee
    case DueAt => f.dueAt
    case ReminderAt => f.reminderAt
  }

  function Set(f: Finding, field: Field, v: Option<int>): Finding {
    match field
    case Assignee => f.(assignee := v)
    case DueAt => f.(dueAt := v)
    case ReminderAt => f.(reminderAt := v)
  }

  /** The requested changes that differ from what is stored. */
  function Effective(f: Finding, changes: map<Field, Option<int>>): map<Field, Option<int>> {
    map field | field in changes && Get(f, field) != changes[field] :: changes[field]
  }

  function SetAll(f: Finding, changes: map<Field, Option<int>>, fields: seq<Field>): Finding {
    if fields == [] then f
    else
      var n := |fields| - 1;
      var earlier := SetAll(f, changes, fields[..n]);
      if fields[n] in changes then Set(earlier, fields[n], changes[fields[n]]) else earlier
  }

  function FieldEvent(f: Finding, c: Call, field: Field): Event
    requires c.Manage? && field in c.changes
  {
    Event(c.finding, c.actor, c.now, FieldChanged(field), None,
          FieldChange(c.expected, f.version + 1, Get(f, field), c.changes[field]))
  }

  /** One event for each changed field, in the order of the fields' names. */
  function FieldEvents(f: Finding, c: Call, fields: seq<Field>): seq<Event>
    requires c.Manage?
  {
    if fields == [] then []
    else
      var n := |fields| - 1;
      var earlier := FieldEvents(f, c, fields[..n]);
      if fields[n] in Effective(f, c.changes) then earlier + [FieldEvent(f, c, fields[n])] else earlier
  }

  function Refusal(f: Finding, c: Call): Option<Error> {
    match c
    case Manage(_, _, _, role, expected, changes, members) =>
      if !Grants(role, ManageFinding) then Some(Forbidden)
      else if f.version != expected then Some(VersionConflict)
      else if Assignee in changes && changes[Assignee].Some? && changes[Assignee].value !in members then
        Some(MemberNotFound)
      else if Effective(f, changes) == map[] then Some(NoChange)
      else None
    case Transition(_, actor, _, role, expected, target, note) =>
      if !Grants(role, TransitionAssignedFinding) then Some(Forbidden)
      else if !Grants(role, TransitionAnyFinding) && f.assignee != Some(actor) then Some(Forbidden)
      else if f.version != expected then Some(VersionConflict)
      else if target !in Targets(f.status) then Some(InvalidTransition)
      else if (target == Resolved) != note.Some? then Some(InvalidResolution)
      else None
    case Comment(_, _, _, _) => None
  }

  function Edited(f: Finding, c: Call): Finding {
    match c
    case Manage(_, _, _, _, _, changes, _) =>
      SetAll(f, Effective(f, changes), FIELDS).(version := f.version + 1)
    case Transition(_, actor, now, _, _, target, note) =>
      if target == Resolved then
        f.(status := target, resolvedAt := Some(now), resolvedBy := Some(actor), resolutionNote := note,
           version := f.version + 1)
      else if f.status == Resolved then
        f.(status := target, resolvedAt := None, resolvedBy := None, resolutionNote := None,
           version := f.version + 1)
      else
        f.(status := target, version := f.version + 1)
    case Comment(_, _, _, _) => f
  }

  function EventsOf(f: Finding, c: Call): seq<Event> {
    match c
    case Manage(_, _, _, _, _, _, _) => FieldEvents(f, c, FIELDS)
    case Transition(id, actor, now, _, expected, target, note) =>
      var kind :=
        if target == Resolved then FindingResolved else if f.status == Resolved then Reopened else StatusChanged;
      [Event(id, actor, now, kind, note, StatusChange(expected, f.version + 1, f.status, target))]
    case Comment(id, actor, now, message) =>
      [Event(id, actor, now, CommentAdded, Some(message), Nothing)]
  }

  /** One service call. */
  function Step(s: State, c: Call): (State, Outcome) {
    if c.Manage? && c.changes == map[] then (s, Rejected(UnsupportedFields))
    else if c.finding !in s.findings then (s, Rejected(NotFound))
    else
      var f := s.findings[c.finding];
      match Refusal(f, c)
      case Some(error) => (s, Rejected(error))
      case None => (State(s.findings[c.finding := Edited(f, c)], s.events + EventsOf(f, c)), Saved)
  }

  class Service {
    var findings: map<Id, Finding>
    var events: seq<Event>

    function Current(): State
      reads this
    {
      State(findings, events)
    }

    constructor (ids: set<Id>)
      ensures Current() == Start(ids)
    {
      findings, events := map id | id in ids :: NEW, [];
    }

    method Manage(id: Id, actor: Id, now: int, role: Option<Role>, expected: nat,
                  requested: map<Field, Option<int>>, members: set<Id>)
        returns (outcome: Outcome)
      modifies this
      ensures (Current(), outcome)
           == Step(old(Current()), Call.Manage(id, actor, now, role, expected, requested, members))
    {
      if requested == map[] {
        return Rejected(UnsupportedFields);
      }
      if id !in findings {
        return Rejected(NotFound);
      }
      var f := findings[id];
      if !Grants(role, ManageFinding) {
        return Rejected(Forbidden);
      }
      if f.version != expected {
        return Rejected(VersionConflict);
      }
      if Assignee in requested && requested[Assignee].Some? && requested[Assignee].value !in members {
        return Rejected(MemberNotFound);
      }
      var changes := map field | field in requested && Get(f, field) != requested[field] :: requested[field];
      if changes == map[] {
        return Rejected(NoChange);
      }
      ghost var c := Call.Manage(id, actor, now, role, expected, requested, members);
      var edited := f;
      var recorded: seq<Event> := [];
      for i := 0 to |FIELDS|
        invariant edited == SetAll(f, changes, FIELDS[..i])
        invariant recorded == FieldEvents(f, c, FIELDS[..i])
      {
        assert FIELDS[..i + 1][..i] == FIELDS[..i];
        var field := FIELDS[i];
        if field in changes {
          edited := Set(edited, field, changes[field]);
          var details := FieldChange(expected, f.version + 1, Get(f, field), changes[field]);
          recorded := recorded + [Event(id, actor, now, FieldChanged(field), None, details)];
        }
      }
      assert FIELDS[..|FIELDS|] == FIELDS;
      findings := findings[id := edited.(version := f.version + 1)];
      events := events + recorded;
      return Saved;
    }

    method Transition(id: Id, actor: Id, now: int, role: Option<Role>, expected: nat,
                      target: Status, note: Option<string>)
        returns (outcome: Outcome)
      modifies this
      ensures (Current(), outcome)
           == Step(old(Current()), Call.Transition(id, actor, now, role, expected, target, note))
    {
      if id !in findings {
        return Rejected(NotFound);
      }
      var f := findings[id];
      if !Grants(role, TransitionAssignedFinding) {
        return Rejected(Forbidden);
      }
      if !Grants(role, TransitionAnyFinding) && f.assignee != Some(actor) {
        return Rejected(Forbidden);
      }
      if f.version != expected {
        return Rejected(VersionConflict);
      }
      if target !in Targets(f.status) {
        return Rejected(InvalidTransition);
      }
      if (target == Resolved) != note.Some? {
        return Rejected(InvalidResolution);
      }
      var previous := f.status;
      var kind := StatusChanged;
      if target == Resolved {
        f := f.(resolvedAt := Some(now), resolvedBy := Some(actor), resolutionNote := note);
        kind := FindingResolved;
      } else if previous == Resolved {
        f := f.(resolvedAt := None, resolvedBy := None, resolutionNote := None);
        kind := Reopened;
      }
      f := f.(status := target, version := f.version + 1);
      findings := findings[id := f];
      var details := StatusChange(expected, f.version, previous, target);
      events := events + [Event(id, actor, now, kind, note, details)];
      return Saved;
    }

    method Comment(id: Id, actor: Id, now: int, message: string) returns (outcome: Outcome)
      modifies this
      ensures (Current(), outcome) == Step(old(Current()), Call.Comment(id, actor, now, message))
    {
      if id !in findings {
        return Rejected(NotFound);
      }
      assert findings[id := findings[id]] == findings;
      events := events + [Event(id, actor, now, CommentAdded, Some(message), Nothing)];
      return Saved;
    }
  }

  /** Freshly stored findings, before any call. */
  function Start(ids: set<Id>): State {
    State(map id | id in ids :: NEW, [])
  }

  /** The state after serving calls one after another, accepted and rejected alike. */
  function Run(ids: set<Id>, calls: seq<Call>): State {
    if calls == [] then Start(ids)
    else
      var n := |calls| - 1;
      Step(Run(ids, calls[..n]), calls[n]).0
  }
}
