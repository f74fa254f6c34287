/** Who may administer an organization, and what each accepted call of it does. */
module GovernanceAuthority {
  import opened Prelude
  import opened Policy
  import opened Governance

  /** An active administrator of an active organization. */
  predicate Governs(s: State, user: nat) {
    && s.organization == Active
    && user in s.members && s.members[user].role == OrgAdmin && s.members[user].status == Active
  }

  /** The calls that only administrators may make. */
  predicate Administers(c: Call) {
    c.UpdateMember? || c.CreateInvitation? || c.RevokeInvitation?
  }

  predicate Administrative(e: Event) {
    !e.InvitationAccepted?
  }

  // ----- one call

  /** Whoever changes anything by an administrative call, or gets it accepted, governs. */
  lemma OnlyAdministratorsAct(s: State, c: Call)
    requires Administers(c)
    requires Step(s, c).0 != s || Step(s, c).1.Done?
    ensures Governs(s, c.caller)
  {
  }

  /** The membership an update asks for: what it does not name stays, and the version counts the
      changes. */
  ghost predicate UpdatedTo(m: Membership, next: Membership, role: Option<Role>, status: Option<RecordStatus>) {
    && (role.Some? ==> next.role == role.value) && (role.None? ==> next.role == m.role)
    && (status.Some? ==> next.status == status.value) && (status.None? ==> next.status == m.status)
    && next.version == if next.role == m.role && next.status == m.status then m.version else m.version + 1
  }

  /** One event for a changed role and one for a changed status. */
  ghost predicate ChangeLogged(added: seq<Event>, actor: nat, user: nat, m: Membership, next: Membership) {
    && (MemberRoleChanged(actor, user, m.role, next.role) in added <==> m.role != next.role)
    && (MemberReactivated(actor, user) in added <==> m.status != next.status == Active)
    && (MemberDeactivated(actor, user) in added <==> m.status != next.status == Archived)
    && |added| == (if m.role != next.role then 1 else 0) + (if m.status != next.status then 1 else 0)
  }

  ghost predicate LeavesNoAdmin(s: State, user: nat, role: Option<Role>, status: Option<RecordStatus>)
    requires user in s.members
  {
    && s.members[user].role == OrgAdmin && s.members[user].status == Active
    && (role in {Some(Member), Some(ApManager)} || status == Some(Archived))
    && forall other :: other in s.members && other != user ==>
         s.members[other].role != OrgAdmin || s.members[other].status != Active
  }

  /** When a membership may be changed; each refusal has its own cause, and the causes are tested
      in this order. */
  lemma UpdateMemberExactly(
      s: State, caller: nat, user: nat, expected: nat, role: Option<Role>, status: Option<RecordStatus>)
    ensures var (after, outcome) := Step(s, UpdateMember(caller, user, expected, role, status));
            && (outcome.Done? <==>
                  && Governs(s, caller) && user in s.members && s.members[user].version == expected
                  && !LeavesNoAdmin(s, user, role, status))
            && (outcome.Rejected? ==> after == s)
            && (outcome == Rejected(Forbidden) <==> !Governs(s, caller))
            && (outcome == Rejected(NotFound) <==> Governs(s, caller) && user !in s.members)
            && (outcome == Rejected(VersionConflict) <==>
                  Governs(s, caller) && user in s.members && s.members[user].version != expected)
            && (outcome.Rejected? ==> outcome.error in {Forbidden, NotFound, VersionConflict, LastActiveAdmin})
  {
  }

  /** An accepted update changes one membership as asked and logs just that. */
  lemma UpdateMemberDoes(
      s: State, caller: nat, user: nat, expected: nat, role: Option<Role>, status: Option<RecordStatus>)
    ensures var (after, outcome) := Step(s, UpdateMember(caller, user, expected, role, status));
            && (outcome.Done? ==>
                  && user in s.members && after.members.Keys == s.members.Keys
                  && UpdatedTo(s.members[user], after.members[user], role, status)
                  && (forall other :: other in s.members && other != user ==>
                        after.members[other] == s.members[other])
                  && after == s.(members := after.members, events := after.events)
                  && s.events <= after.events
                  && ChangeLogged(after.events[|s.events|..], caller, user, s.members[user], after.members[user]))
  {
  }

  predicate Invites(i: Invitation, email: Email, role: Role, expiresAt: int) {
    i.email == email && i.role == role && i.expiresAt == expiresAt && i.status == Pending
  }

  /** An invitation needs an administrator and an address that neither holds a membership nor has
      a pending invitation. */
  lemma CreateInvitationExactly(s: State, caller: nat, email: Email, role: Role, now: int, lifetime: nat)
    ensures var (after, outcome) := Step(s, CreateInvitation(caller, email, role, now, lifetime));
            && (outcome.Done? <==>
                  && Governs(s, caller)
                  && (forall user :: user in s.members && user < |s.users| ==> s.users[user] != email)
                  && (forall i :: 0 <= i < |s.invitations| && s.invitations[i].status == Pending ==>
                        s.invitations[i].email != email))
            && (outcome.Rejected? ==> after == s)
            && (outcome == Rejected(Forbidden) <==> !Governs(s, caller))
            && (outcome == Rejected(MembershipExists) <==>
                  Governs(s, caller) && exists user :: user in s.members && user < |s.users| && s.users[user] == email)
            && (outcome.Rejected? ==> outcome.error in {Forbidden, MembershipExists, InvitationIsPending})
            && (outcome.Done? ==>
                  && |after.invitations| == |s.invitations| + 1
                  && after.invitations[..|s.invitations|] == s.invitations
                  && Invites(after.invitations[|s.invitations|], email, role, now + lifetime)
                  && after.events == s.events + [InvitationCreated(caller, |s.invitations|)]
                  && after == s.(invitations := after.invitations, events := after.events))
  {
  }

  /** Only a pending invitation of the expected version can be revoked. */
  lemma RevokeInvitationExactly(s: State, caller: nat, i: nat, expected: nat, now: int)
    ensures var (after, outcome) := Step(s, RevokeInvitation(caller, i, expected, now));
            && (outcome.Done? <==>
                  && Governs(s, caller) && i < |s.invitations|
                  && s.invitations[i].version == expected && s.invitations[i].status == Pending)
            && (outcome.Rejected? ==> after == s)
            && (outcome == Rejected(Forbidden) <==> !Governs(s, caller))
            && (outcome == Rejected(NotFound) <==> Governs(s, caller) && i >= |s.invitations|)
            && (outcome == Rejected(VersionConflict) <==>
                  Governs(s, caller) && i < |s.invitations| && s.invitations[i].version != expected)
            && (outcome.Rejected? ==> outcome.error in {Forbidden, NotFound, VersionConflict, InvitationNotPending})
            && (outcome.Done? ==>
                  && |after.invitations| == |s.invitations|
                  && after.invitations[i].status == Revoked && after.invitations[i].revokedAt == Some(now)
                  && (forall j :: 0 <= j < |s.invitations| && j != i ==> after.invitations[j] == s.invitations[j])
                  && after.events == s.events + [InvitationRevoked(caller, i)]
                  && after == s.(invitations := after.invitations, events := after.events))
  {
  }

  /** The user an accepted call brings into the organization. */
  function Newcomer(s: State, c: Call): nat
    requires c.AcceptInvitation? || c.RegisterInvited?
  {
    if c.AcceptInvitation? then c.caller else |s.users|
  }

  /** The invitation was open at that time. */
  predicate IsOpen(s: State, token: int, now: int) {
    && 0 <= token < |s.invitations| && s.organization == Active
    && s.invitations[token].status == Pending && now < s.invitations[token].expiresAt
  }

  /** A redeemed invitation gives its role, and no other, to one user, and the log says so. */
  lemma RedemptionExactly(s: State, c: Call)
    requires c.AcceptInvitation? || c.RegisterInvited?
    ensures var (after, outcome) := Step(s, c);
            && (outcome.Done? <==>
                  && IsOpen(s, c.token, c.now)
                  && if c.RegisterInvited? then s.invitations[c.token].email !in s.users
                     else c.caller < |s.users| && c.caller !in s.members
                          && s.users[c.caller] == s.invitations[c.token].email)
            && (outcome.Rejected? ==> after == s)
            && (outcome == Rejected(InvalidInvitation) <==>
                  !IsOpen(s, c.token, c.now) && (c.AcceptInvitation? ==> c.caller < |s.users|))
            && (outcome.Done? ==> Redeemed(s, after, c))
  {
  }

  ghost predicate Redeemed(s: State, after: State, c: Call)
    requires (c.AcceptInvitation? || c.RegisterInvited?) && IsOpen(s, c.token, c.now)
  {
    var user, role := Newcomer(s, c), s.invitations[c.token].role;
    && user in after.members && after.members[user].role == role && after.members[user].status == Active
    && (forall other :: other in s.members && other != user ==>
          other in after.members && after.members[other] == s.members[other])
    && after.members.Keys == s.members.Keys + {user}
    && |after.invitations| == |s.invitations|
    && after.invitations[c.token].status == Accepted && after.invitations[c.token].acceptedBy == Some(user)
    && (forall j :: 0 <= j < |s.invitations| && j != c.token ==> after.invitations[j] == s.invitations[j])
    && after.events == s.events + [InvitationAccepted(user, c.token, role)]
    && user < |after.users| && after.users[user] == s.invitations[c.token].email
    && after.users == if c.RegisterInvited? then s.users + [s.invitations[c.token].email] else s.users
  }

  // ----- whole runs

  /** The events one call adds, if any, are its caller's, and administrative ones are added by
      administrative calls only. */
  lemma EventsOfCall(s: State, c: Call)
    ensures s.events <= Step(s, c).0.events
    ensures forall i :: |s.events| <= i < |Step(s, c).0.events| && Administrative(Step(s, c).0.events[i]) ==>
      Administers(c) && Step(s, c).0.events[i].actor == c.caller
  {
  }

  /** Call k of the run wrote event i. */
  ghost predicate WroteEvent(start: State, calls: seq<Call>, k: nat, i: nat)
    requires k < |calls|
  {
    |Run(start, calls[..k]).events| <= i < |Step(Run(start, calls[..k]), calls[k]).0.events|
  }

  /** In every run, each invitation issued or revoked and each change of a membership was logged
      for a user who governed the organization when the event was written. */
  lemma {:induction false} EventsAreByAdministrators(start: State, calls: seq<Call>, i: nat) returns (k: nat)
    requires |start.events| <= i < |Run(start, calls).events|
    ensures k < |calls| && WroteEvent(start, calls, k, i)
    ensures Administrative(Run(start, calls).events[i]) ==>
      Governs(Run(start, calls[..k]), Run(start, calls).events[i].actor)
  {
    var n := |calls| - 1;
    var before := Run(start, calls[..n]);
    EventsOfCall(before, calls[n]);
    if i < |before.events| {
      k := EventsAreByAdministrators(start, calls[..n], i);
      assert calls[..n][..k] == calls[..k];
    } else {
      k := n;
      if Administers(calls[n]) {
        OnlyAdministratorsAct(before, calls[n]);
      }
    }
  }

  /** No administrative call of the run is made by somebody who governs then. */
  ghost predicate Unprivileged(start: State, calls: seq<Call>) {
    forall k :: 0 <= k < |calls| && Administers(calls[k]) ==> !Governs(Run(start, calls[..k]), calls[k].caller)
  }

  /** The later state has every earlier membership unchanged, and the same invitations, except
      that pending ones may have been accepted. */
  ghost predicate OnlyJoined(s: State, s': State) {
    && |s.users| <= |s'.users|
    && (forall user :: user in s.members ==> user in s'.members && s'.members[user] == s.members[user])
    && (forall user :: user in s'.members ==> user < |s'.users|)
    && |s'.invitations| == |s.invitations|
    && forall i :: 0 <= i < |s.invitations| ==>
         s'.invitations[i] == s.invitations[i]
         || (s.invitations[i].status == Pending && s'.invitations[i].status == Accepted)
  }

  lemma UnprivilegedStep(s: State, c: Call)
    requires forall user :: user in s.members ==> user < |s.users|
    requires Administers(c) ==> !Governs(s, c.caller)
    ensures OnlyJoined(s, Step(s, c).0)
  {
    if Administers(c) && (Step(s, c).0 != s || Step(s, c).1.Done?) {
      OnlyAdministratorsAct(s, c);
    }
  }

  /** Without an administrator, people can accept invitations that were issued before, and nothing
      else: no membership is changed, and no invitation is issued or revoked. */
  lemma {:induction false} OthersOnlyJoin(start: State, calls: seq<Call>)
    requires forall user :: user in start.members ==> user < |start.users|
    requires Unprivileged(start, calls)
    ensures OnlyJoined(start, Run(start, calls))
  {
    if calls != [] {
      var n := |calls| - 1;
      assert Unprivileged(start, calls[..n]) by {
        forall k | 0 <= k < n && Administers(calls[..n][k])
          ensures !Governs(Run(start, calls[..n][..k]), calls[..n][k].caller)
        {
          assert calls[..n][..k] == calls[..k];
          assert Administers(calls[k]);
        }
      }
      OthersOnlyJoin(start, calls[..n]);
      UnprivilegedStep(Run(start, calls[..n]), calls[n]);
    }
  }
}
