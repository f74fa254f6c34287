/** Members and invitations of one organization. Every call runs under the organization lock, so
    a run is a sequence of calls. Users and invitations are numbered in the order they are stored;
    an invitation's token is its number. */
module Governance {
  import opened Prelude
  import opened Policy

  type Email = int

  datatype Membership = Membership(role: Role, status: RecordStatus, version: nat)

  datatype InvitationStatus = Pending | Accepted | Revoked

  datatype Invitation = Invitation(
    email: Email, role: Role, expiresAt: int, status: InvitationStatus,
    acceptedAt: Option<int>, acceptedBy: Option<nat>, revokedAt: Option<int>, version: nat)

  datatype Event =
    | InvitationCreated(actor: nat, invitation: nat)
    | InvitationAccepted(actor: nat, invitation: nat, role: Role)
    | InvitationRevoked(actor: nat, invitation: nat)
    | MemberRoleChanged(actor: nat, user: nat, previous: Role, role: Role)
    | MemberReactivated(actor: nat, user: nat)
    | MemberDeactivated(actor: nat, user: nat)

  /** `users` holds each account's email address, whatever organizations it belongs to. */
  datatype State = State(
    organization: RecordStatus, users: seq<Email>, members: map<nat, Membership>,
    invitations: seq<Invitation>, events: seq<Event>)

  datatype Error =
    | Unauthenticated
    | Forbidden
    | NotFound
    | VersionConflict
    | LastActiveAdmin
    | MembershipExists
    | InvitationIsPending
    | InvitationNotPending
    | InvalidInvitation
    | InvitationEmailMismatch
    | AccountExists

  datatype Outcome = Done | Rejected(error: Error)

  /** SignUp is an account opened elsewhere, with an organization of its own. */
  datatype Call =
    | UpdateMember(caller: nat, user: nat, expected: nat, role: Option<Role>, status: Option<RecordStatus>)
    | CreateInvitation(caller: nat, email: Email, newRole: Role, now: int, lifetime: nat)
    | RevokeInvitation(caller: nat, invitation: nat, expected: nat, now: int)
    | AcceptInvitation(caller: nat, token: int, now: int)
    | RegisterInvited(token: int, now: int)
    | SignUp(email: Email)

  /** The caller's membership is read again after the organization is locked. */
  predicate Authorized(s: State, caller: nat, permission: Permission) {
    && s.organization == Active
    && caller in s.members && s.members[caller].status == Active
    && permission in RolePermissions(s.members[caller].role)
  }

  predicate IsActiveAdmin(m: Membership) {
    m.role == OrgAdmin && m.status == Active
  }

  predicate OtherAdmin(members: map<nat, Membership>, user: nat) {
    exists other :: other in members && other != user && IsActiveAdmin(members[other])
  }

  predicate HoldsMembership(s: State, email: Email) {
    exists user :: user in s.members && user < |s.users| && s.users[user] == email
  }

  predicate HasPending(invitations: seq<Invitation>, email: Email) {
    exists i :: 0 <= i < |invitations| && invitations[i].email == email && invitations[i].status == Pending
  }

  /** The invitation a token opens: pending, not expired, of an active organization. */
  predicate Available(s: State, token: int, now: int) {
    && 0 <= token < |s.invitations| && s.organization == Active
    && s.invitations[token].status == Pending && s.invitations[token].expiresAt > now
  }

  function MemberAfter(m: Membership, role: Option<Role>, status: Option<RecordStatus>): Membership {
    var next := Membership(role.GetOr(m.role), status.GetOr(m.status), m.version);
    if next == m then m else next.(version := m.version + 1)
  }

  function MemberEvents(actor: nat, user: nat, m: Membership, next: Membership): seq<Event> {
    var roleEvents := if next.role != m.role then [MemberRoleChanged(actor, user, m.role, next.role)] else [];
    if next.status == m.status then roleEvents
    else if next.status == Active then roleEvents + [MemberReactivated(actor, user)]
    else roleEvents + [MemberDeactivated(actor, user)]
  }

  /** A membership for the invitation's role, and the invitation used up. */
  function Redeem(s: State, token: nat, user: nat, now: int): State
    requires token < |s.invitations|
  {
    var i := s.invitations[token];
    var used := i.(status := Accepted, acceptedAt := Some(now), acceptedBy := Some(user), version := i.version + 1);
    s.(members := s.members[user := Membership(i.role, Active, 1)],
       invitations := s.invitations[token := used],
       events := s.events + [InvitationAccepted(user, token, i.role)])
  }

  function Refusal(s: State, c: Call): Option<Error> {
    match c
    case UpdateMember(caller, user, expected, role, status) =>
      if !Authorized(s, caller, ManageOrgMembers) then Some(Forbidden)
      else if user !in s.members then Some(NotFound)
      else
        var m := s.members[user];
        if m.version != expected then Some(VersionConflict)
        else if IsActiveAdmin(m) && !IsActiveAdmin(MemberAfter(m, role, status)) && !OtherAdmin(s.members, user) then
          Some(LastActiveAdmin)
        else None
    case CreateInvitation(caller, email, _, _, _) =>
      if !Authorized(s, caller, ManageOrgInvitations) then Some(Forbidden)
      else if HoldsMembership(s, email) then Some(MembershipExists)
      else if HasPending(s.invitations, email) then Some(InvitationIsPending)
      else None
    case RevokeInvitation(caller, invitation, expected, _) =>
      if !Authorized(s, caller, ManageOrgInvitations) then Some(Forbidden)
      else if invitation >= |s.invitations| then Some(NotFound)
      else if s.invitations[invitation].version != expected then Some(VersionConflict)
      else if s.invitations[invitation].status != Pending then Some(InvitationNotPending)
      else None
    case AcceptInvitation(caller, token, now) =>
      if caller >= |s.users| then Some(Unauthenticated)
      else if !Available(s, token, now) then Some(InvalidInvitation)
      else if s.users[caller] != s.invitations[token].email then Some(InvitationEmailMismatch)
      else if caller in s.members then Some(MembershipExists)
      else None
    case RegisterInvited(token, now) =>
      if !Available(s, token, now) then Some(InvalidInvitation)
      else if s.invitations[token].email in s.users then Some(AccountExists)
      else None
    case SignUp(email) => if email in s.users then Some(AccountExists) else None
  }

  function Changed(s: State, c: Call): State
    requires Refusal(s, c).None?
  {
    match c
    case UpdateMember(caller, user, _, role, status) =>
      var m := s.members[user];
      var next := MemberAfter(m, role, status);
      s.(members := s.members[user := next], events := s.events + MemberEvents(caller, user, m, next))
    case CreateInvitation(caller, email, role, now, lifetime) =>
      var i := Invitation(email, role, now + lifetime, Pending, None, None, None, 1);
      s.(invitations := s.invitations + [i], events := s.events + [InvitationCreated(caller, |s.invitations|)])
    case RevokeInvitation(caller, invitation, _, now) =>
      var i := s.invitations[invitation];
      var revoked := i.(status := Revoked, revokedAt := Some(now), version := i.version + 1);
      s.(invitations := s.invitations[invitation := revoked],
         events := s.events + [InvitationRevoked(caller, invitation)])
    case AcceptInvitation(caller, token, now) => Redeem(s, token, caller, now)
    case RegisterInvited(token, now) =>
      Redeem(s.(users := s.users + [s.invitations[token].email]), token, |s.users|, now)
    case SignUp(email) => s.(users := s.users + [email])
  }

  function Step(s: State, c: Call): (State, Outcome) {
    match Refusal(s, c)
    case Some(error) => (s, Rejected(error))
    case None => (Changed(s, c), Done)
  }

  function Run(start: State, calls: seq<Call>): State {
    if calls == [] then start
    else
      var n := |calls| - 1;
      Step(Run(start, calls[..n]), calls[n]).0
  }

  class Service {
    var organization: RecordStatus
    var users: seq<Email>
    var members: map<nat, Membership>
    var invitations: seq<Invitation>
    var events: seq<Event>

    function Current(): State
      reads this
    {
      State(organization, users, members, invitations, events)
    }

    /** An organization as registration leaves it: one administrator, nothing else. */
    constructor (others: seq<Email>, founder: Email)
      ensures Current() == Founded(others, founder)
    {
      organization, users := Active, others + [founder];
      members, invitations, events := map[|others| := Membership(OrgAdmin, Active, 1)], [], [];
    }

    method UpdateMember(caller: nat, user: nat, expected: nat, role: Option<Role>, status: Option<RecordStatus>)
        returns (outcome: Outcome)
      modifies this
      ensures (Current(), outcome) == Step(old(Current()), Call.UpdateMember(caller, user, expected, role, status))
    {
      if !Authorized(Current(), caller, ManageOrgMembers) {
        return Rejected(Forbidden);
      }
      if user !in members {
        return Rejected(NotFound);
      }
      var target := members[user];
      if target.version != expected {
        return Rejected(VersionConflict);
      }
      var nextRole, nextStatus := role.GetOr(target.role), status.GetOr(target.status);
      if IsActiveAdmin(target) && (nextRole != OrgAdmin || nextStatus != Active) {
        if !OtherAdmin(members, user) {
          return Rejected(LastActiveAdmin);
        }
      }
      var previousRole, previousStatus := target.role, target.status;
      if nextRole != previousRole || nextStatus != previousStatus {
        target := Membership(nextRole, nextStatus, target.version + 1);
        if nextRole != previousRole {
          events := events + [MemberRoleChanged(caller, user, previousRole, nextRole)];
        }
        if nextStatus != previousStatus {
          events := events
            + [if nextStatus == Active then MemberReactivated(caller, user) else MemberDeactivated(caller, user)];
        }
      }
      assert events == old(events) + MemberEvents(caller, user, old(members[user]), target);
      members := members[user := target];
      return Done;
    }

    method CreateInvitation(caller: nat, email: Email, role: Role, now: int, lifetime: nat) returns (outcome: Outcome)
      modifies this
      ensures (Current(), outcome) == Step(old(Current()), Call.CreateInvitation(caller, email, role, now, lifetime))
    {
      if !Authorized(Current(), caller, ManageOrgInvitations) {
        return Rejected(Forbidden);
      }
      if HoldsMembership(Current(), email) {
        return Rejected(MembershipExists);
      }
      if HasPending(invitations, email) {
        return Rejected(InvitationIsPending);
      }
      var number := |invitations|;
      invitations := invitations + [Invitation(email, role, now + lifetime, Pending, None, None, None, 1)];
      events := events + [InvitationCreated(caller, number)];
      return Done;
    }

    method RevokeInvitation(caller: nat, number: nat, expected: nat, now: int) returns (outcome: Outcome)
      modifies this
      ensures (Current(), outcome) == Step(old(Current()), Call.RevokeInvitation(caller, number, expected, now))
    {
      if !Authorized(Current(), caller, ManageOrgInvitations) {
        return Rejected(Forbidden);
      }
      if number >= |invitations| {
        return Rejected(NotFound);
      }
      var invitation := invitations[number];
      if invitation.version != expected {
        return Rejected(VersionConflict);
      }
      if invitation.status != Pending {
        return Rejected(InvitationNotPending);
      }
      invitation := invitation.(status := Revoked, revokedAt := Some(now));
      invitation := invitation.(version := invitation.version + 1);
      invitations := invitations[number := invitation];
      events := events + [InvitationRevoked(caller, number)];
      return Done;
    }

    method AcceptInvitation(caller: nat, token: int, now: int) returns (outcome: Outcome)
      modifies this
      ensures (Current(), outcome) == Step(old(Current()), Call.AcceptInvitation(caller, token, now))
    {
      if caller >= |users| {
        return Rejected(Unauthenticated);
      }
      if !Available(Current(), token, now) {
        return Rejected(InvalidInvitation);
      }
      if users[caller] != invitations[token].email {
        return Rejected(InvitationEmailMismatch);
      }
      if caller in members {
        return Rejected(MembershipExists);
      }
      Accept(token, caller, now);
      return Done;
    }

    method RegisterInvited(token: int, now: int) returns (outcome: Outcome)
      modifies this
      ensures (Current(), outcome) == Step(old(Current()), Call.RegisterInvited(token, now))
    {
      if !Available(Current(), token, now) {
        return Rejected(InvalidInvitation);
      }
      if invitations[token].email in users {
        return Rejected(AccountExists);
      }
      var user := |users|;
      users := users + [invitations[token].email];
      Accept(token, user, now);
      return Done;
    }

    method Accept(token: nat, user: nat, now: int)
      requires token < |invitations|
      modifies this
      ensures Current() == Redeem(old(Current()), token, user, now)
    {
      var invitation := invitations[token];
      members := members[user := Membership(invitation.role, Active, 1)];
      invitation := invitation.(status := Accepted, acceptedAt := Some(now), acceptedBy := Some(user));
      invitation := invitation.(version := invitation.version + 1);
      invitations := invitations[token := invitation];
      events := events + [InvitationAccepted(user, token, invitation.role)];
    }

    method SignUp(email: Email) returns (outcome: Outcome)
      modifies this
      ensures (Current(), outcome) == Step(old(Current()), Call.SignUp(email))
    {
      if email in users {
        return Rejected(AccountExists);
      }
      users := users + [email];
      return Done;
    }
  }

  function Founded(others: seq<Email>, founder: Email): State {
    State(Active, others + [founder], map[|others| := Membership(OrgAdmin, Active, 1)], [], [])
  }
}
