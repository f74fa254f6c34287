/** What every run of the organization's calls keeps. */
module GovernanceSafety {
  import opened Prelude
  import opened Policy
  import opened Governance

  ghost predicate HasAdmin(s: State) {
    exists user :: user in s.members && IsActiveAdmin(s.members[user])
  }

  ghost predicate AccountsDistinct(s: State) {
    && (forall i, j :: 0 <= i < j < |s.users| ==> s.users[i] != s.users[j])
    && (forall user :: user in s.members ==> user < |s.users|)
  }

  predicate IsPending(s: State, i: int) {
    0 <= i < |s.invitations| && s.invitations[i].status == Pending
  }

  /** Each address has at most one pending invitation. */
  ghost predicate OnePendingEach(s: State) {
    forall i, j :: 0 <= i < j < |s.invitations| && IsPending(s, i) && IsPending(s, j) ==>
      s.invitations[i].email != s.invitations[j].email
  }

  /** No pending invitation is for an address that holds a membership. */
  ghost predicate PendingAreOutside(s: State) {
    forall i, user :: IsPending(s, i) && user in s.members && user < |s.users| ==>
      s.users[user] != s.invitations[i].email
  }

  /** The columns that go with each invitation status. */
  ghost predicate Lifecycle(i: Invitation) {
    match i.status
    case Pending => i.acceptedAt.None? && i.acceptedBy.None? && i.revokedAt.None?
    case Accepted => i.acceptedAt.Some? && i.acceptedBy.Some? && i.revokedAt.None?
    case Revoked => i.acceptedAt.None? && i.acceptedBy.None? && i.revokedAt.Some?
  }

  ghost predicate Lifecycles(s: State) {
    forall i :: 0 <= i < |s.invitations| ==> Lifecycle(s.invitations[i])
  }

  ghost predicate BroughtIn(s: State, i: int, user: nat) {
    0 <= i < |s.invitations| && s.invitations[i].status == Accepted && s.invitations[i].acceptedBy == Some(user)
  }

  /** Accepted invitations and the memberships of everyone but the founders correspond one to
      one, and each member brought in holds the invited address. */
  ghost predicate OneMembershipEach(s: State, founders: set<nat>) {
    && founders <= s.members.Keys
    && (forall i: int, user: nat :: BroughtIn(s, i, user) ==>
         user in s.members && user !in founders && user < |s.users| && s.users[user] == s.invitations[i].email)
    && (forall i: int, j: int, user: nat :: BroughtIn(s, i, user) && BroughtIn(s, j, user) ==> i == j)
    && (forall user :: user in s.members && user !in founders ==> exists i :: BroughtIn(s, i, user))
  }

  ghost predicate Governed(s: State, founders: set<nat>) {
    && HasAdmin(s)
    && AccountsDistinct(s)
    && OnePendingEach(s)
    && PendingAreOutside(s)
    && Lifecycles(s)
    && OneMembershipEach(s, founders)
  }

  // ----- one call

  lemma UpdateKeeps(s: State, c: Call, founders: set<nat>)
    requires Governed(s, founders) && c.UpdateMember? && Refusal(s, c).None?
    ensures Governed(Changed(s, c), founders)
  {
    var after := Changed(s, c);
    var m, next := s.members[c.user], MemberAfter(s.members[c.user], c.role, c.status);
    assert after.members.Keys == s.members.Keys;
    assert HasAdmin(after) by {
      if IsActiveAdmin(m) && !IsActiveAdmin(next) {
        var other :| other in s.members && other != c.user && IsActiveAdmin(s.members[other]);
        assert IsActiveAdmin(after.members[other]);
      } else {
        var admin :| admin in s.members && IsActiveAdmin(s.members[admin]);
        assert IsActiveAdmin(after.members[admin]);
      }
    }
    MembershipsKept(s, after, founders);
  }

  /** Calls that leave users and invitations alone keep the correspondence. */
  lemma MembershipsKept(s: State, after: State, founders: set<nat>)
    requires OneMembershipEach(s, founders)
    requires after.members.Keys == s.members.Keys && after.users == s.users && after.invitations == s.invitations
    ensures OneMembershipEach(after, founders)
  {
    forall i, user ensures BroughtIn(after, i, user) == BroughtIn(s, i, user) {
    }
  }

  lemma CreateKeeps(s: State, c: Call, founders: set<nat>)
    requires Governed(s, founders) && c.CreateInvitation? && Refusal(s, c).None?
    ensures Governed(Changed(s, c), founders)
  {
    var after := Changed(s, c);
    assert HasAdmin(after);
    forall i, user ensures BroughtIn(after, i, user) == BroughtIn(s, i, user) {
    }
  }

  lemma RevokeKeeps(s: State, c: Call, founders: set<nat>)
    requires Governed(s, founders) && c.RevokeInvitation? && Refusal(s, c).None?
    ensures Governed(Changed(s, c), founders)
  {
    var after := Changed(s, c);
    assert HasAdmin(after);
    forall i, user ensures BroughtIn(after, i, user) == BroughtIn(s, i, user) {
    }
  }

  lemma SignUpKeeps(s: State, email: Email, founders: set<nat>)
    requires Governed(s, founders) && email !in s.users
    ensures Governed(s.(users := s.users + [email]), founders)
  {
    var after := s.(users := s.users + [email]);
    assert HasAdmin(after);
    forall i, user ensures BroughtIn(after, i, user) == BroughtIn(s, i, user) {
    }
  }

  /** A pending invitation redeemed by the holder of its address, who is not a member yet. */
  lemma RedeemKeeps(s: State, token: nat, user: nat, now: int, founders: set<nat>)
    requires Governed(s, founders) && token < |s.invitations| && s.invitations[token].status == Pending
    requires user < |s.users| && s.users[user] == s.invitations[token].email && user !in s.members
    ensures Governed(Redeem(s, token, user, now), founders)
  {
    var after := Redeem(s, token, user, now);
    assert HasAdmin(after) by {
      var admin :| admin in s.members && IsActiveAdmin(s.members[admin]);
      assert IsActiveAdmin(after.members[admin]);
    }
    RedeemedOutside(s, token, user, now);
    RedeemedOne(s, token, user, now, founders);
  }

  lemma RedeemedOutside(s: State, token: nat, user: nat, now: int)
    requires OnePendingEach(s) && PendingAreOutside(s) && token < |s.invitations|
    requires s.invitations[token].status == Pending
    requires user < |s.users| && s.users[user] == s.invitations[token].email
    ensures PendingAreOutside(Redeem(s, token, user, now))
  {
    var after := Redeem(s, token, user, now);
    forall i, other | IsPending(after, i) && other in after.members && other < |after.users|
      ensures after.users[other] != after.invitations[i].email
    {
      assert i != token && s.invitations[i] == after.invitations[i] && IsPending(s, i) && IsPending(s, token);
      if other != user {
        assert other in s.members;
      }
    }
  }

  lemma RedeemedOne(s: State, token: nat, user: nat, now: int, founders: set<nat>)
    requires OneMembershipEach(s, founders) && token < |s.invitations| && s.invitations[token].status == Pending
    requires user < |s.users| && s.users[user] == s.invitations[token].email && user !in s.members
    ensures OneMembershipEach(Redeem(s, token, user, now), founders)
  {
    var after := Redeem(s, token, user, now);
    forall i, other ensures BroughtIn(after, i, other) == if i == token then other == user else BroughtIn(s, i, other) {
    }
    forall other | other in after.members && other !in founders ensures exists i :: BroughtIn(after, i, other) {
      if other == user {
        assert BroughtIn(after, token, user);
      } else {
        var i :| BroughtIn(s, i, other);
        assert BroughtIn(after, i, other);
      }
    }
  }

  lemma StepKeeps(s: State, c: Call, founders: set<nat>)
    requires Governed(s, founders)
    ensures Governed(Step(s, c).0, founders)
  {
    if Refusal(s, c).None? {
      match c {
        case UpdateMember(_, _, _, _, _) => UpdateKeeps(s, c, founders);
        case CreateInvitation(_, _, _, _, _) => CreateKeeps(s, c, founders);
        case RevokeInvitation(_, _, _, _) => RevokeKeeps(s, c, founders);
        case AcceptInvitation(caller, token, now) => RedeemKeeps(s, token, caller, now, founders);
        case RegisterInvited(token, now) =>
          var email := s.invitations[token].email;
          SignUpKeeps(s, email, founders);
          RedeemKeeps(s.(users := s.users + [email]), token, |s.users|, now, founders);
        case SignUp(email) => SignUpKeeps(s, email, founders);
      }
    }
  }

  // ----- whole runs

  /** In every run: an organization that starts with an active administrator always has one; an
      address has at most one pending invitation and none while it holds a membership; accepted
      invitations and later memberships correspond one to one. */
  lemma {:induction false} AlwaysGoverned(start: State, calls: seq<Call>, founders: set<nat>)
    requires Governed(start, founders)
    ensures Governed(Run(start, calls), founders)
  {
    if calls != [] {
      var n := |calls| - 1;
      AlwaysGoverned(start, calls[..n], founders);
      StepKeeps(Run(start, calls[..n]), calls[n], founders);
    }
  }

  /** A newly registered organization satisfies all of it. */
  lemma FoundedIsGoverned(others: seq<Email>, founder: Email)
    requires forall i, j :: 0 <= i < j < |others| ==> others[i] != others[j]
    requires founder !in others
    ensures Governed(Founded(others, founder), {|others|})
  {
    var s := Founded(others, founder);
    assert IsActiveAdmin(s.members[|others|]);
  }

  lemma {:induction false} SettledStays(start: State, calls: seq<Call>, k: nat, i: nat)
    requires k <= |calls| && i < |Run(start, calls[..k]).invitations|
    requires Run(start, calls[..k]).invitations[i].status != Pending
    ensures i < |Run(start, calls).invitations|
    ensures Run(start, calls).invitations[i] == Run(start, calls[..k]).invitations[i]
  {
    if k == |calls| {
      assert calls[..k] == calls;
    } else {
      var n := |calls| - 1;
      assert calls[..n][..k] == calls[..k];
      SettledStays(start, calls[..n], k, i);
    }
  }

  predicate Redeems(c: Call, token: int) {
    (c.AcceptInvitation? || c.RegisterInvited?) && c.token == token
  }

  /** Once an invitation is redeemed or revoked, nothing redeems it again: at most one call of a
      run succeeds with a given token. */
  lemma RedeemedOnce(start: State, calls: seq<Call>, i: nat, j: nat, token: int)
    requires i < j < |calls| && Redeems(calls[i], token) && Redeems(calls[j], token)
    requires Step(Run(start, calls[..i]), calls[i]).1.Done?
    ensures Step(Run(start, calls[..j]), calls[j]).1 == Rejected(InvalidInvitation)
         || Step(Run(start, calls[..j]), calls[j]).1 == Rejected(Unauthenticated)
  {
    var after := Run(start, calls[..i + 1]);
    assert calls[..i + 1][..i] == calls[..i];
    assert after.invitations[token].status == Accepted;
    assert calls[..j][..i + 1] == calls[..i + 1];
    SettledStays(start, calls[..j], i + 1, token);
  }

  /** An available invitation can always be redeemed, by exactly one of the two routes: whoever
      holds an account with its address accepts it, and without such an account registering
      succeeds. The membership test of acceptance never fires. */
  lemma AvailableIsRedeemable(s: State, founders: set<nat>, token: nat, now: int, caller: nat)
    requires Governed(s, founders) && Available(s, token, now)
    ensures Step(s, RegisterInvited(token, now)).1.Done? <==> s.invitations[token].email !in s.users
    ensures Step(s, AcceptInvitation(caller, token, now)).1.Done?
       <==> caller < |s.users| && s.users[caller] == s.invitations[token].email
    ensures Step(s, AcceptInvitation(caller, token, now)).1 != Rejected(MembershipExists)
  {
  }

  // ----- the governance log

  datatype Standing = Standing(role: Role, status: RecordStatus)

  function Standings(members: map<nat, Membership>): map<nat, Standing> {
    map user | user in members :: Standing(members[user].role, members[user].status)
  }

  /** Memberships as one event leaves them. */
  function Told(standings: map<nat, Standing>, e: Event): map<nat, Standing> {
    match e
    case InvitationAccepted(user, _, role) => standings[user := Standing(role, Active)]
    case MemberRoleChanged(_, user, _, role) =>
      if user in standings then standings[user := standings[user].(role := role)] else standings
    case MemberReactivated(_, user) =>
      if user in standings then standings[user := standings[user].(status := Active)] else standings
    case MemberDeactivated(_, user) =>
      if user in standings then standings[user := standings[user].(status := Archived)] else standings
    case _ => standings
  }

  function Retold(standings: map<nat, Standing>, events: seq<Event>): map<nat, Standing> {
    if events == [] then standings
    else Told(Retold(standings, events[..|events| - 1]), events[|events| - 1])
  }

  lemma RetoldSnoc(standings: map<nat, Standing>, events: seq<Event>, e: Event)
    ensures Retold(standings, events + [e]) == Told(Retold(standings, events), e)
  {
    assert (events + [e])[..|events|] == events;
  }

  /** The events of a membership change tell the new role and status. */
  lemma ChangeRetold(
      standings: map<nat, Standing>, events: seq<Event>, actor: nat, user: nat, m: Membership, next: Membership)
    requires var told := Retold(standings, events); user in told && told[user] == Standing(m.role, m.status)
    ensures Retold(standings, events + MemberEvents(actor, user, m, next))
         == Retold(standings, events)[user := Standing(next.role, next.status)]
  {
    var roleEvents := if next.role != m.role then [MemberRoleChanged(actor, user, m.role, next.role)] else [];
    if next.role != m.role {
      RetoldSnoc(standings, events, roleEvents[0]);
    } else {
      assert events + [] == events;
    }
    assert Retold(standings, events + roleEvents) == Retold(standings, events)[user := Standing(next.role, m.status)];
    if next.status != m.status {
      var e := if next.status == Active then MemberReactivated(actor, user) else MemberDeactivated(actor, user);
      assert events + (roleEvents + [e]) == events + roleEvents + [e];
      RetoldSnoc(standings, events + roleEvents, e);
    }
  }

  lemma UpdateRetold(standings: map<nat, Standing>, s: State, c: Call)
    requires Retold(standings, s.events) == Standings(s.members)
    requires c.UpdateMember? && Refusal(s, c).None?
    ensures Retold(standings, Changed(s, c).events) == Standings(Changed(s, c).members)
  {
    var m, next := s.members[c.user], MemberAfter(s.members[c.user], c.role, c.status);
    ChangeRetold(standings, s.events, c.caller, c.user, m, next);
  }

  lemma RedeemRetold(standings: map<nat, Standing>, s: State, token: nat, user: nat, now: int)
    requires Retold(standings, s.events) == Standings(s.members) && token < |s.invitations|
    ensures Retold(standings, Redeem(s, token, user, now).events) == Standings(Redeem(s, token, user, now).members)
  {
    RetoldSnoc(standings, s.events, InvitationAccepted(user, token, s.invitations[token].role));
  }

  /** Issuing and revoking invitations says nothing about memberships. */
  lemma InvitationsRetold(standings: map<nat, Standing>, s: State, c: Call)
    requires Retold(standings, s.events) == Standings(s.members) && Refusal(s, c).None?
    requires c.CreateInvitation? || c.RevokeInvitation?
    ensures Retold(standings, Changed(s, c).events) == Standings(Changed(s, c).members)
  {
    if c.CreateInvitation? {
      RetoldSnoc(standings, s.events, InvitationCreated(c.caller, |s.invitations|));
    } else {
      RetoldSnoc(standings, s.events, InvitationRevoked(c.caller, c.invitation));
    }
  }

  lemma StepRetold(standings: map<nat, Standing>, s: State, c: Call)
    requires Retold(standings, s.events) == Standings(s.members) && Refusal(s, c).None?
    ensures Retold(standings, Changed(s, c).events) == Standings(Changed(s, c).members)
  {
    match c {
      case UpdateMember(_, _, _, _, _) => UpdateRetold(standings, s, c);
      case CreateInvitation(_, _, _, _, _) => InvitationsRetold(standings, s, c);
      case RevokeInvitation(_, _, _, _) => InvitationsRetold(standings, s, c);
      case AcceptInvitation(caller, token, now) => RedeemRetold(standings, s, token, caller, now);
      case RegisterInvited(token, now) =>
        RedeemRetold(standings, s.(users := s.users + [s.invitations[token].email]), token, |s.users|, now);
      case SignUp(_) =>
    }
  }

  /** Replaying the governance log over the founding memberships gives every member's present
      role and status. */
  lemma {:induction false} LogTellsMemberships(start: State, calls: seq<Call>)
    requires start.events == []
    ensures Retold(Standings(start.members), Run(start, calls).events) == Standings(Run(start, calls).members)
  {
    if calls != [] {
      var n := |calls| - 1;
      LogTellsMemberships(start, calls[..n]);
      if Refusal(Run(start, calls[..n]), calls[n]).None? {
        StepRetold(Standings(start.members), Run(start, calls[..n]), calls[n]);
      }
    }
  }

  /** How often the log says an invitation was accepted. */
  function Acceptances(events: seq<Event>, i: nat): nat {
    if events == [] then 0
    else
      var n := |events| - 1;
      Acceptances(events[..n], i) + if events[n].InvitationAccepted? && events[n].invitation == i then 1 else 0
  }

  predicate IsAccepted(s: State, i: nat) {
    i < |s.invitations| && s.invitations[i].status == Accepted
  }

  lemma RedeemCounted(s: State, token: nat, user: nat, now: int, i: nat)
    requires token < |s.invitations| && s.invitations[token].status == Pending
    requires Acceptances(s.events, i) == if IsAccepted(s, i) then 1 else 0
    ensures var after := Redeem(s, token, user, now);
            Acceptances(after.events, i) == if IsAccepted(after, i) then 1 else 0
  {
    AcceptancesSnoc(s.events, InvitationAccepted(user, token, s.invitations[token].role), i);
  }

  lemma AcceptancesSnoc(events: seq<Event>, e: Event, i: nat)
    ensures Acceptances(events + [e], i)
         == Acceptances(events, i) + if e.InvitationAccepted? && e.invitation == i then 1 else 0
  {
    assert (events + [e])[..|events|] == events;
  }

  lemma MemberEventsCounted(events: seq<Event>, actor: nat, user: nat, m: Membership, next: Membership, i: nat)
    ensures Acceptances(events + MemberEvents(actor, user, m, next), i) == Acceptances(events, i)
  {
    var more := MemberEvents(actor, user, m, next);
    if more == [] {
      assert events + more == events;
    } else if |more| == 1 {
      assert more == [more[0]];
      AcceptancesSnoc(events, more[0], i);
    } else {
      assert events + more == events + [more[0]] + [more[1]];
      AcceptancesSnoc(events, more[0], i);
      AcceptancesSnoc(events + [more[0]], more[1], i);
    }
  }

  lemma InvitationsCounted(s: State, c: Call, i: nat)
    requires Acceptances(s.events, i) == (if IsAccepted(s, i) then 1 else 0) && Refusal(s, c).None?
    requires c.CreateInvitation? || c.RevokeInvitation?
    ensures var after := Changed(s, c);
            Acceptances(after.events, i) == if IsAccepted(after, i) then 1 else 0
  {
    if c.CreateInvitation? {
      AcceptancesSnoc(s.events, InvitationCreated(c.caller, |s.invitations|), i);
    } else {
      AcceptancesSnoc(s.events, InvitationRevoked(c.caller, c.invitation), i);
    }
  }

  lemma StepCounted(s: State, c: Call, i: nat)
    requires Acceptances(s.events, i) == (if IsAccepted(s, i) then 1 else 0) && Refusal(s, c).None?
    ensures var after := Changed(s, c);
            Acceptances(after.events, i) == if IsAccepted(after, i) then 1 else 0
  {
    match c {
      case UpdateMember(caller, user, _, role, status) =>
        MemberEventsCounted(s.events, caller, user, s.members[user], MemberAfter(s.members[user], role, status), i);
      case CreateInvitation(_, _, _, _, _) => InvitationsCounted(s, c, i);
      case RevokeInvitation(_, _, _, _) => InvitationsCounted(s, c, i);
      case AcceptInvitation(caller, token, now) => RedeemCounted(s, token, caller, now, i);
      case RegisterInvited(token, now) =>
        RedeemCounted(s.(users := s.users + [s.invitations[token].email]), token, |s.users|, now, i);
      case SignUp(_) =>
    }
  }

  /** The log records exactly one acceptance of every accepted invitation and none of others. */
  lemma {:induction false} AcceptedOnceInLog(start: State, calls: seq<Call>, i: nat)
    requires start.events == [] && start.invitations == []
    ensures Acceptances(Run(start, calls).events, i) == if IsAccepted(Run(start, calls), i) then 1 else 0
  {
    if calls != [] {
      var n := |calls| - 1;
      AcceptedOnceInLog(start, calls[..n], i);
      if Refusal(Run(start, calls[..n]), calls[n]).None? {
        StepCounted(Run(start, calls[..n]), calls[n], i);
      }
    }
  }
}
