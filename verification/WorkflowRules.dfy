/** Who may edit a finding and how, told from roles, statuses and versions. */
module WorkflowRules {
  import opened Prelude
  import opened Policy
  import opened Workflow

  /** The moves of a finding: into review, resolved from either open status, and reopened. */
  predicate Moves(from: Status, to: Status) {
    || (from == Open && to == InReview)
    || (from == Open && to == Resolved)
    || (from == InReview && to == Resolved)
    || (from == Resolved && to == Open)
  }

  predicate Manages(role: Option<Role>) {
    role == Some(ApManager) || role == Some(OrgAdmin)
  }

  /** Managers may move any finding, members the ones assigned to them. */
  predicate MayMove(f: Finding, actor: Id, role: Option<Role>) {
    Manages(role) || (role == Some(Member) && f.assignee == Some(actor))
  }

  /** Only this finding changed, and by one version. */
  ghost predicate EditedOnly(s: State, after: State, id: Id) {
    && id in s.findings && after.findings.Keys == s.findings.Keys
    && after.findings[id].version == s.findings[id].version + 1
    && forall other :: other in s.findings && other != id ==> after.findings[other] == s.findings[other]
  }

  /** A status change is accepted exactly from who may move the finding, at the expected version,
      along an allowed move, and with a note exactly when it resolves. */
  lemma TransitionExactly(s: State, c: Call)
    requires c.Transition?
    ensures Step(s, c).1.Saved? <==>
            && c.finding in s.findings
            && MayMove(s.findings[c.finding], c.actor, c.role)
            && s.findings[c.finding].version == c.expected
            && Moves(s.findings[c.finding].status, c.target)
            && (c.note != None <==> c.target == Resolved)
    ensures !Step(s, c).1.Saved? ==> Step(s, c).0 == s
  {
  }

  /** It moves the finding to the status asked for, keeps its assignment and dates, and stores who
      resolved it, when and why as long as it stays resolved. */
  lemma TransitionDoes(s: State, c: Call)
    requires c.Transition? && Step(s, c).1.Saved?
    ensures var after := Step(s, c).0;
            && EditedOnly(s, after, c.finding)
            && var f, g := s.findings[c.finding], after.findings[c.finding];
               && g.status == c.target
               && g.assignee == f.assignee && g.dueAt == f.dueAt && g.reminderAt == f.reminderAt
               && (c.target == Resolved ==>
                     g.resolvedAt == Some(c.now) && g.resolvedBy == Some(c.actor) && g.resolutionNote == c.note)
               && (f.status == Resolved ==>
                     g.resolvedAt == None && g.resolvedBy == None && g.resolutionNote == None)
               && |after.events| == |s.events| + 1 && s.events <= after.events
               && after.events[|s.events|].details == StatusChange(c.expected, c.expected + 1, f.status, c.target)
  {
  }

  /** Some field was asked to take a value it does not have. */
  ghost predicate Differs(f: Finding, changes: map<Field, Option<int>>) {
    || (Assignee in changes && changes[Assignee] != f.assignee)
    || (DueAt in changes && changes[DueAt] != f.dueAt)
    || (ReminderAt in changes && changes[ReminderAt] != f.reminderAt)
  }

  lemma EffectiveMeans(f: Finding, changes: map<Field, Option<int>>)
    ensures Effective(f, changes) == map[] <==> !Differs(f, changes)
  {
    var effective := Effective(f, changes);
    if effective != map[] {
      var field := Pick(effective.Keys);
      assert field in changes && Get(f, field) != changes[field];
    }
    assert Assignee in effective <==> Assignee in changes && changes[Assignee] != f.assignee;
    assert DueAt in effective <==> DueAt in changes && changes[DueAt] != f.dueAt;
    assert ReminderAt in effective <==> ReminderAt in changes && changes[ReminderAt] != f.reminderAt;
  }

  /** Managing is accepted exactly from a manager, at the expected version, with an active member
      as the new assignee, if one is named, and if it changes something. */
  lemma ManageExactly(s: State, c: Call)
    requires c.Manage?
    ensures Step(s, c).1.Saved? <==>
            && c.finding in s.findings && Manages(c.role)
            && s.findings[c.finding].version == c.expected
            && (Assignee in c.changes && c.changes[Assignee] != None ==> c.changes[Assignee].value in c.members)
            && Differs(s.findings[c.finding], c.changes)
    ensures !Step(s, c).1.Saved? ==> Step(s, c).0 == s
  {
    if c.finding in s.findings {
      EffectiveMeans(s.findings[c.finding], c.changes);
    }
  }

  /** A named field takes the value asked for, the others stay. */
  function Asked(changes: map<Field, Option<int>>, field: Field, stored: Option<int>): Option<int> {
    if field in changes then changes[field] else stored
  }

  lemma SetAllMeans(f: Finding, changes: map<Field, Option<int>>)
    ensures SetAll(f, Effective(f, changes), FIELDS)
         == f.(assignee := Asked(changes, Assignee, f.assignee), dueAt := Asked(changes, DueAt, f.dueAt),
               reminderAt := Asked(changes, ReminderAt, f.reminderAt))
  {
    var effective := Effective(f, changes);
    assert FIELDS[..2] == [Assignee, DueAt] && FIELDS[..2][..1] == [Assignee] && FIELDS[..2][..1][..0] == [];
    assert SetAll(f, effective, [Assignee]) == f.(assignee := Asked(changes, Assignee, f.assignee));
    assert SetAll(f, effective, [Assignee, DueAt])
        == f.(assignee := Asked(changes, Assignee, f.assignee), dueAt := Asked(changes, DueAt, f.dueAt));
  }

  /** Managing sets the named fields and leaves the status and resolution alone. */
  lemma ManageDoes(s: State, c: Call)
    requires c.Manage? && Step(s, c).1.Saved?
    ensures var after := Step(s, c).0;
            && EditedOnly(s, after, c.finding)
            && var f := s.findings[c.finding];
               after.findings[c.finding]
               == f.(assignee := Asked(c.changes, Assignee, f.assignee), dueAt := Asked(c.changes, DueAt, f.dueAt),
                     reminderAt := Asked(c.changes, ReminderAt, f.reminderAt), version := c.expected + 1)
  {
    SetAllMeans(s.findings[c.finding], c.changes);
  }

  /** A comment needs only the finding and leaves it as it is. */
  lemma CommentDoes(s: State, c: Call)
    requires c.Comment?
    ensures Step(s, c).1.Saved? <==> c.finding in s.findings
    ensures Step(s, c).0.findings == s.findings
    ensures Step(s, c).1.Saved? ==>
      Step(s, c).0.events == s.events + [Event(c.finding, c.actor, c.now, CommentAdded, Some(c.message), Nothing)]
  {
  }

  // ----- whole runs

  lemma {:induction false} FieldEventsAreFieldChanges(f: Finding, c: Call, fields: seq<Field>)
    requires c.Manage?
    ensures forall i :: 0 <= i < |FieldEvents(f, c, fields)| ==>
      FieldEvents(f, c, fields)[i].details.FieldChange? && FieldEvents(f, c, fields)[i].actor == c.actor
  {
    if fields != [] {
      FieldEventsAreFieldChanges(f, c, fields[..|fields| - 1]);
    }
  }

  /** The status change or field change that event i records was made by call k, by an actor who
      was entitled to it then. */
  ghost predicate Entitled(s: State, c: Call, e: Event) {
    && c.finding in s.findings
    && (e.details.StatusChange? ==>
          && c.Transition? && e.actor == c.actor && e.finding == c.finding
          && e.details.from == s.findings[c.finding].status && e.details.to == c.target
          && Moves(e.details.from, e.details.to)
          && MayMove(s.findings[c.finding], c.actor, c.role))
    && (e.details.FieldChange? ==> c.Manage? && e.actor == c.actor && Manages(c.role))
  }

  lemma StepEntitled(s: State, c: Call)
    ensures s.events <= Step(s, c).0.events
    ensures forall i :: |s.events| <= i < |Step(s, c).0.events| ==> Entitled(s, c, Step(s, c).0.events[i])
  {
    if Step(s, c).1.Saved? && c.Manage? {
      FieldEventsAreFieldChanges(s.findings[c.finding], c, FIELDS);
    }
  }

  /** In every run each recorded status change followed an allowed move and was made by a manager
      or the member the finding was assigned to, and each field change by a manager. */
  lemma {:induction false} EventsAreEntitled(ids: set<Id>, calls: seq<Call>, i: nat) returns (k: nat)
    requires i < |Run(ids, calls).events|
    ensures k < |calls|
    ensures |Run(ids, calls[..k]).events| <= i < |Step(Run(ids, calls[..k]), calls[k]).0.events|
    ensures Entitled(Run(ids, calls[..k]), calls[k], Run(ids, calls).events[i])
  {
    var n := |calls| - 1;
    var before := Run(ids, calls[..n]);
    StepEntitled(before, calls[n]);
    if i < |before.events| {
      k := EventsAreEntitled(ids, calls[..n], i);
      assert calls[..n][..k] == calls[..k];
    } else {
      k := n;
    }
  }
}
