/** In every run of the tenancy transactions, after each of them: one owner per live organisation,
    one membership per person, nobody in a deleted organisation, and no invite used twice. */
module TenancyInvariant {
  import opened Common
  import opened Records
  import opened TextRules
  import opened Tenancy

  /** One transaction. `InvitesMove` stands for the other invite transactions, `Suspend...` for
      the platform's switches. */
  datatype Step =
    | Onboard(who: Identity, user: UserId, newUser: UserId, org: OrgId, id: MemberId, name: string, slug: string)
    | Accept(hash: TokenHash, now: Time, who: Identity, invite: Option<InviteId>, user: UserId, newUser: UserId, id: MemberId)
    | ChangeRole(org: OrgId, actor: UserId, target: MemberId, role: Role, limited: bool)
    | Remove(org: OrgId, actor: UserId, target: MemberId, limited: bool)
    | Replace(org: OrgId, source: MemberId, replacement: MemberId)
    | Delete(org: OrgId, actor: UserId, limited: bool)
    | InvitesMove(invites: map<InviteId, Invite>)
    | SuspendOrganisation(org: OrgId, suspended: bool)
    | SuspendUser(user: UserId, suspended: bool)

  predicate WasAccepted(invites: map<InviteId, Invite>, i: InviteId) { i in invites && invites[i].status.InviteAccepted? }

  /** New rows get new keys, a token leads to a usable invite or to none, and no other invite
      transaction revives an accepted invite. */
  ghost predicate Enabled(s: State, t: Step) {
    match t
    case Onboard(who, user, newUser, org, id, _, _) =>
      && newUser !in s.users && org !in s.orgs && id !in s.members && IsCurrentUser(s.users, who.authId, newUser, user)
    case Accept(hash, now, who, invite, user, newUser, id) =>
      && newUser !in s.users && id !in s.members && IsCurrentUser(s.users, who.authId, newUser, user)
      && Leads(s, hash, now, invite)
    case InvitesMove(invites) => forall i :: WasAccepted(s.invites, i) ==> WasAccepted(invites, i)
    case _ => true
  }

  function Result(s: State, t: Step): Common.Result<State, Refusal> {
    match t
    case Onboard(who, user, newUser, org, id, name, slug) => Onboarded(s, who, user, newUser, org, id, name, slug)
    case Accept(_, _, who, invite, user, newUser, id) => InviteTaken(s, who, invite, user, newUser, id)
    case ChangeRole(org, actor, target, role, limited) => RoleChanged(s, org, actor, target, role, limited)
    case Remove(org, actor, target, limited) => Removed(s, org, actor, target, limited)
    case Replace(org, source, replacement) => OwnerReplaced(s, org, source, replacement)
    case Delete(org, actor, limited) => SoftDeleted(s, org, actor, limited)
    case InvitesMove(invites) => Success(s.(invites := invites))
    case SuspendOrganisation(org, suspended) =>
      if org in s.orgs then Success(s.(orgs := s.orgs[org := s.orgs[org].(suspended := suspended)]))
      else Failure(ORGANISATION_NOT_FOUND)
    case SuspendUser(user, suspended) =>
      if user in s.users then Success(s.(users := s.users[user := s.users[user].(suspended := suspended)]))
      else Failure(USER_NOT_FOUND)
  }

  function Apply(s: State, t: Step): State { Settled(s, Result(s, t)) }

  ghost predicate {:induction false} IsRun(s: State, run: seq<Step>)
    decreases |run|
  {
    run == [] || (Enabled(s, run[0]) && IsRun(Apply(s, run[0]), run[1..]))
  }

  ghost function {:induction false} Final(s: State, run: seq<Step>): State
    decreases |run|
  {
    if run == [] then s else Final(Apply(s, run[0]), run[1..])
  }

  /* ---- Each transaction keeps the invariant ---- */

  lemma NewUserKeepsInv(s: State, authId: AuthId, newId: UserId)
    requires Inv(s) && newId !in s.users
    ensures Inv(WithUser(s, authId, newId))
  {
    var s' := WithUser(s, authId, newId);
    if UserWith(s.users, authId) == {} {
      assert forall u :: u in s.users && s.users[u].authId == authId ==> u in UserWith(s.users, authId);
    }
    assert forall org :: org in s.orgs ==> OrgInv(s, org) == OrgInv(s', org);
  }

  /** Inserting a membership keeps the invariant of every organisation but the new one's own,
      whose invariant the owner count re-establishes. */
  lemma MembershipKeepsInv(s: State, id: MemberId, user: UserId, org: OrgId, role: Role)
    requires id !in s.members && org in s.orgs && !s.orgs[org].deleted && user in s.users
    requires forall o :: o in s.orgs && o != org ==> OrgInv(s, o)
    requires OneMembershipEach(s.members)
    requires forall m :: m in s.members ==> s.members[m].org in s.orgs && s.members[m].user in s.users
    requires forall u, v :: u in s.users && v in s.users && s.users[u].authId == s.users[v].authId ==> u == v
    requires WithMembership(s, id, user, org, role).Success?
    ensures Inv(WithMembership(s, id, user, org, role).value)
  {
    var s' := WithMembership(s, id, user, org, role).value;
    forall o | o in s'.orgs ensures OrgInv(s', o) {
      if o != org {
        assert OrgInv(s, o);
        assert OwnerIds(s'.members, o) == OwnerIds(s.members, o) && ActiveIds(s'.members, o) == ActiveIds(s.members, o);
      }
    }
  }

  lemma OnboardKeepsInv(s: State, t: Step)
    requires Inv(s) && t.Onboard? && Enabled(s, t) && Result(s, t).Success?
    ensures Inv(Result(s, t).value)
  {
    hide SlugProblem, WithMembership, Normalised, Strip, OrgInv;
    var s1 := WithUser(s, t.who.authId, t.newUser);
    NewUserKeepsInv(s, t.who.authId, t.newUser);
    var s2 := s1.(orgs := s1.orgs[t.org := Organisation(Strip(t.name), Normalised(t.slug), false, false)]);
    forall o | o in s2.orgs && o != t.org ensures OrgInv(s2, o) { SameOrg(s1, s2, o); }
    MembershipKeepsInv(s2, t.id, t.user, t.org, OWNER);
    var s3 := WithMembership(s2, t.id, t.user, t.org, OWNER).value;
    MembershipOnly(s2, t.id, t.user, t.org, OWNER);
    var s4 := Result(s, t).value;
    forall o | o in s4.orgs ensures OrgInv(s4, o) { SameOrg(s3, s4, o); }
  }

  /** What an insertion changes: one row of one table. */
  lemma MembershipOnly(s: State, id: MemberId, user: UserId, org: OrgId, role: Role)
    requires WithMembership(s, id, user, org, role).Success?
    ensures WithMembership(s, id, user, org, role).value == s.(members := s.members[id := Member(user, org, role, true)])
  {}

  lemma SameOrg(s: State, s': State, org: OrgId)
    requires org in s.orgs && org in s'.orgs && s.orgs[org].deleted == s'.orgs[org].deleted && s.members == s'.members
    ensures OrgInv(s, org) == OrgInv(s', org)
  {}

  lemma AcceptKeepsInv(s: State, t: Step)
    requires Inv(s) && t.Accept? && Enabled(s, t) && Result(s, t).Success?
    ensures Inv(Result(s, t).value)
  {
    hide WithMembership, Lower, OrgInv, Usable;
    var row := s.invites[t.invite.value];
    var s0 := s.(invites := s.invites[t.invite.value := row.(status := InviteAccepted)]);
    forall o | o in s.orgs ensures OrgInv(s0, o) { SameOrg(s, s0, o); }
    NewUserKeepsInv(s0, t.who.authId, t.newUser);
    MembershipKeepsInv(WithUser(s0, t.who.authId, t.newUser), t.id, t.user, row.organisationId, row.role);
  }

  /** Changing one membership that is not an owner's, into one that is not an owner's. */
  lemma OrdinaryChangeKeepsInv(s: State, target: MemberId, row: Member)
    requires Inv(s) && target in s.members && s.members[target].active && s.members[target].role != OWNER
    requires row.user == s.members[target].user && row.org == s.members[target].org && row.role != OWNER
    ensures Inv(s.(members := s.members[target := row]))
  {
    var s' := s.(members := s.members[target := row]);
    forall o | o in s'.orgs ensures OrgInv(s', o) {
      assert OrgInv(s, o);
      assert OwnerIds(s'.members, o) == OwnerIds(s.members, o);
      assert ActiveIds(s'.members, o) <= ActiveIds(s.members, o);
    }
  }

  lemma OneOwnerMeansAtMostOne(s: State)
    requires Inv(s)
    ensures AtMostOneOwner(s.members)
  {
    forall m, n, org | m in s.members && n in s.members && OwnerRow(s.members[m], org) && OwnerRow(s.members[n], org)
      ensures m == n
    {
      assert OrgInv(s, org) && m in ActiveIds(s.members, org);
      OneMeansUnique(OwnerIds(s.members, org), m, n);
    }
  }

  lemma ReplacedElsewhere(s: State, t: Step, o: OrgId)
    requires t.Replace? && Result(s, t).Success?
    ensures var after := Result(s, t).value.members;
      && ActiveIds(after, o) == ActiveIds(s.members, o)
      && (o != t.org ==> OwnerIds(after, o) == OwnerIds(s.members, o))
  {}

  lemma ReplacedHere(s: State, t: Step)
    requires AtMostOneOwner(s.members) && t.Replace? && Result(s, t).Success?
    ensures OwnerIds(Result(s, t).value.members, t.org) == {t.replacement}
    ensures t.source in ActiveIds(s.members, t.org)
  {
    hide AtMostOneOwner, OwnerIds;
    ReplacedOwners(s.members, t.org, t.source, t.replacement);
  }

  lemma ReplaceKeepsInv(s: State, t: Step)
    requires Inv(s) && t.Replace? && Result(s, t).Success?
    ensures Inv(Result(s, t).value)
  {
    hide ActiveIds, OwnerIds;
    var s' := Result(s, t).value;
    OneOwnerMeansAtMostOne(s);
    ReplacedHere(s, t);
    forall o | o in s'.orgs ensures OrgInv(s', o) {
      assert OrgInv(s, o);
      ReplacedElsewhere(s, t, o);
    }
  }

  lemma DeleteKeepsInv(s: State, t: Step)
    requires Inv(s) && t.Delete? && Result(s, t).Success?
    ensures Inv(Result(s, t).value)
  {
    hide OwnerIds, ActiveIds, HasRole, UserProblem;
    var s' := Result(s, t).value;
    DeactivatedKeeps(s.members, t.org);
    forall o | o in s'.orgs ensures OrgInv(s', o) {
      assert OrgInv(s, o);
      DeactivatedElsewhere(s.members, t.org, o);
    }
  }

  lemma DeactivatedElsewhere(members: map<MemberId, Member>, org: OrgId, o: OrgId)
    ensures var after := Deactivated(members, org);
      && (o == org ==> ActiveIds(after, o) == {})
      && (o != org ==> OwnerIds(after, o) == OwnerIds(members, o) && ActiveIds(after, o) == ActiveIds(members, o))
  {}

  lemma DeactivatedKeeps(members: map<MemberId, Member>, org: OrgId)
    requires OneMembershipEach(members)
    ensures OneMembershipEach(Deactivated(members, org))
  {}

  /** Every transaction, whatever its outcome, keeps the invariant. */
  lemma StepKeepsInv(s: State, t: Step)
    requires Inv(s) && Enabled(s, t)
    ensures Inv(Apply(s, t))
  {
    hide Onboarded, InviteTaken, SoftDeleted, OwnerReplaced, OrgInv, ActorProblem, HasRole;
    if Result(s, t).Success? {
      match t
      case Onboard(_, _, _, _, _, _, _) => OnboardKeepsInv(s, t);
      case Accept(_, _, _, _, _, _, _) => AcceptKeepsInv(s, t);
      case ChangeRole(_, _, target, role, _) => OrdinaryChangeKeepsInv(s, target, s.members[target].(role := role));
      case Remove(_, _, target, _) => OrdinaryChangeKeepsInv(s, target, s.members[target].(active := false));
      case Replace(_, _, _) => ReplaceKeepsInv(s, t);
      case Delete(_, _, _) => DeleteKeepsInv(s, t);
      case _ =>
        var s' := Apply(s, t);
        forall o | o in s'.orgs ensures OrgInv(s', o) { SameOrg(s, s', o); }
    }
  }

  /** In every run, at every commit: exactly one active owner in each live organisation, at most
      one active membership of each user, and none in a deleted organisation. */
  lemma {:induction false} RunKeepsInv(s: State, run: seq<Step>)
    requires Inv(s) && IsRun(s, run)
    ensures Inv(Final(s, run))
    decreases |run|
  {
    hide Inv, Apply, Enabled;
    if run != [] {
      StepKeepsInv(s, run[0]);
      RunKeepsInv(Apply(s, run[0]), run[1..]);
    }
  }

  /* ---- Invites and memberships ---- */

  predicate Takes(s: State, t: Step, i: InviteId) { t.Accept? && t.invite == Some(i) && Result(s, t).Success? }

  predicate Adds(s: State, t: Step) { (t.Accept? || t.Onboard?) && Result(s, t).Success? }

  /** A successful acceptance marks its invite, and adds exactly one membership: the caller's, in
      the invite's organisation and role. */
  lemma AcceptanceAddsOneMembership(s: State, t: Step, i: InviteId)
    requires Takes(s, t, i)
    ensures i in s.invites
    ensures var s', row := Apply(s, t), s.invites[i];
      && s'.members == s.members[t.id := Member(t.user, row.organisationId, row.role, true)]
      && s'.invites == s.invites[i := row.(status := InviteAccepted)] && s'.orgs == s.orgs
  {
    hide Lower, OrgProblem, UserProblem, WithMembership;
    var row := s.invites[i];
    var s1 := WithUser(s.(invites := s.invites[i := row.(status := InviteAccepted)]), t.who.authId, t.newUser);
    MembershipOnly(s1, t.id, t.user, row.organisationId, row.role);
  }

  lemma OnboardingAddsOneMembership(s: State, t: Step)
    requires t.Onboard? && Result(s, t).Success?
    ensures Apply(s, t).members == s.members[t.id := Member(t.user, t.org, OWNER, true)]
    ensures Apply(s, t).invites == s.invites
  {
    hide SlugProblem, UserProblem, WithMembership, Normalised, Strip;
    var s1 := WithUser(s, t.who.authId, t.newUser);
    var s2 := s1.(orgs := s1.orgs[t.org := Organisation(Strip(t.name), Normalised(t.slug), false, false)]);
    MembershipOnly(s2, t.id, t.user, t.org, OWNER);
  }

  ghost function {:induction false} TimesTaken(s: State, run: seq<Step>, i: InviteId): nat
    decreases |run|
  {
    if run == [] then 0
    else (if Takes(s, run[0], i) then 1 else 0) + TimesTaken(Apply(s, run[0]), run[1..], i)
  }

  ghost function {:induction false} MembershipsAdded(s: State, run: seq<Step>): nat
    decreases |run|
  {
    if run == [] then 0
    else (if Adds(s, run[0]) then 1 else 0) + MembershipsAdded(Apply(s, run[0]), run[1..])
  }

  lemma StaysAccepted(s: State, t: Step, i: InviteId)
    requires Enabled(s, t)
    ensures WasAccepted(s.invites, i) ==> WasAccepted(Apply(s, t).invites, i) && !Takes(s, t, i)
    ensures Takes(s, t, i) ==> WasAccepted(Apply(s, t).invites, i)
  {
    hide Onboarded, InviteTaken, ActorProblem, HasRole, WithMembership;
    if t.Accept? && Result(s, t).Success? {
      InviteNamed(s, t);
      AcceptanceAddsOneMembership(s, t, t.invite.value);
    } else if t.Onboard? && Result(s, t).Success? {
      OnboardingAddsOneMembership(s, t);
    }
  }

  lemma InviteNamed(s: State, t: Step)
    requires t.Accept? && Result(s, t).Success?
    ensures t.invite.Some?
  {
    hide WithMembership, Lower;
  }

  /** No invite is ever accepted twice. */
  lemma {:induction false} AcceptedAtMostOnce(s: State, run: seq<Step>, i: InviteId)
    requires IsRun(s, run)
    ensures TimesTaken(s, run, i) <= if WasAccepted(s.invites, i) then 0 else 1
    decreases |run|
  {
    hide Apply, Enabled, Takes, WasAccepted;
    if run != [] {
      StaysAccepted(s, run[0], i);
      AcceptedAtMostOnce(Apply(s, run[0]), run[1..], i);
    }
  }

  lemma StepAddsMembership(s: State, t: Step)
    requires Enabled(s, t)
    ensures |Apply(s, t).members| == |s.members| + (if Adds(s, t) then 1 else 0)
  {
    hide Onboarded, InviteTaken, ActorProblem, HasRole, WithMembership, OrgProblem;
    if t.Accept? && Result(s, t).Success? {
      InviteNamed(s, t);
      AcceptanceAddsOneMembership(s, t, t.invite.value);
    } else if t.Onboard? && Result(s, t).Success? {
      OnboardingAddsOneMembership(s, t);
    } else if t.Delete? && Result(s, t).Success? {
      assert Apply(s, t).members.Keys == s.members.Keys;
      KeysCount(Apply(s, t).members);
      KeysCount(s.members);
    }
  }

  lemma KeysCount(members: map<MemberId, Member>)
    ensures |members| == |members.Keys|
  {}

  /** Membership rows are never lost and appear only through acceptances and onboardings, one for
      each. */
  lemma {:induction false} MembershipsAreConserved(s: State, run: seq<Step>)
    requires IsRun(s, run)
    ensures |Final(s, run).members| == |s.members| + MembershipsAdded(s, run)
    decreases |run|
  {
    hide Apply, Enabled, Adds;
    if run != [] {
      StepAddsMembership(s, run[0]);
      MembershipsAreConserved(Apply(s, run[0]), run[1..]);
    }
  }

  /* ---- What the checks amount to ---- */

  /** Into an existing organisation under the invariant, a membership can be created exactly when
      the user is free and the role is not owner, or the organisation is deleted and the role is
      owner: the owner count alone does not protect deleted organisations, the callers do. */
  lemma CreationSucceedsExactlyWhen(s: State, id: MemberId, user: UserId, org: OrgId, role: Role)
    requires Inv(s) && org in s.orgs && id !in s.members
    ensures WithMembership(s, id, user, org, role).Success?
            <==> !Belongs(s.members, user) && (role == OWNER <==> s.orgs[org].deleted)
  {
    assert OrgInv(s, org);
    OwnersAfterInsertion(s.members, id, user, org, role);
    hide OwnerIds, ActiveIds, Belongs, Inv;
    OwnersAreActive(s.members, org);
  }

  lemma OwnersAfterInsertion(members: map<MemberId, Member>, id: MemberId, user: UserId, org: OrgId, role: Role)
    requires id !in members
    ensures OwnerIds(members[id := Member(user, org, role, true)], org)
            == OwnerIds(members, org) + if role == OWNER then {id} else {}
  {}

  lemma OwnersAreActive(members: map<MemberId, Member>, org: OrgId)
    ensures OwnerIds(members, org) <= ActiveIds(members, org)
  {}

  /** The order of the two updates in an owner replacement matters: promoting first would meet
      the index on active owners. */
  lemma PromotingFirstMeetsIndex(s: State, org: OrgId, source: MemberId, replacement: MemberId)
    requires Inv(s) && OwnerReplaced(s, org, source, replacement).Success?
    ensures AtMostOneOwner(s.members[source := s.members[source].(role := ADMIN)])
    ensures AtMostOneOwner(OwnerReplaced(s, org, source, replacement).value.members)
    ensures !AtMostOneOwner(s.members[replacement := s.members[replacement].(role := OWNER)])
  {
    OneOwnerMeansAtMostOne(s);
    DemotionIsAllowed(s.members, source);
    PromotionIsRefused(s.members, org, source, replacement);
    ReplaceKeepsInv(s, Replace(org, source, replacement));
    hide AtMostOneOwner, Inv;
    OneOwnerMeansAtMostOne(OwnerReplaced(s, org, source, replacement).value);
  }

  lemma PromotionIsRefused(members: map<MemberId, Member>, org: OrgId, source: MemberId, replacement: MemberId)
    requires source in members && replacement in members && source != replacement
    requires OwnerRow(members[source], org) && members[replacement].active && members[replacement].org == org
    ensures !AtMostOneOwner(members[replacement := members[replacement].(role := OWNER)])
  {
    var wrong := members[replacement := members[replacement].(role := OWNER)];
    assert OwnerRow(wrong[source], org) && OwnerRow(wrong[replacement], org);
  }
}
