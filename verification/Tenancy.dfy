/** Who belongs to which organisation: onboarding, invite acceptance, role changes, removal,
    owner replacement and soft deletion, each one transaction. */
module Tenancy {
  import opened Common
  import opened Records
  import opened TextRules

  type MemberId = nat
  type AuthId = nat

  datatype Organisation = Organisation(name: string, slug: string, deleted: bool, suspended: bool)
  datatype Member = Member(user: UserId, org: OrgId, role: Role, active: bool)
  datatype User = User(authId: AuthId, suspended: bool, onboarded: bool)

  datatype State = State(
    orgs: map<OrgId, Organisation>,
    members: map<MemberId, Member>,
    users: map<UserId, User>,
    invites: map<InviteId, Invite>)

  /** What the identity provider says about a caller. */
  datatype Identity = Identity(authId: AuthId, email: Option<string>, emailVerified: bool)

  datatype Refusal =
    | USER_NOT_FOUND | USER_SUSPENDED | EMAIL_UNVERIFIED | ALREADY_MEMBER | OWNER_EXISTS | OWNER_INVARIANT
    | NAME_BLANK | SLUG_BLANK | SLUG_INVALID | SLUG_TAKEN
    | ORGANISATION_NOT_FOUND | ORGANISATION_SUSPENDED | MEMBERSHIP_NOT_FOUND | NOT_A_MEMBER
    | CANNOT_ASSIGN_OWNER | OWNER_ROLE_FIXED | ONLY_OWNER | SAME_ROLE | OWNER_NOT_REMOVABLE
    | ADMIN_REMOVES_MEMBERS_ONLY | NOT_ALLOWED | RATE_LIMITED
    | SAME_MEMBERSHIP | SOURCE_NOT_OWNER | REPLACEMENT_IS_OWNER | INVITE_INVALID | INVITE_FOR_OTHER_EMAIL

  /* ---- Queries ---- */

  predicate ActiveAs(m: Member, user: UserId, org: OrgId) { m.active && m.user == user && m.org == org }

  predicate OwnerRow(m: Member, org: OrgId) { m.active && m.org == org && m.role == OWNER }

  function OwnerIds(members: map<MemberId, Member>, org: OrgId): set<MemberId> {
    set m | m in members && OwnerRow(members[m], org)
  }

  function ActiveIds(members: map<MemberId, Member>, org: OrgId): set<MemberId> {
    set m | m in members && members[m].active && members[m].org == org
  }

  predicate Belongs(members: map<MemberId, Member>, user: UserId) {
    exists m :: m in members && members[m].active && members[m].user == user
  }

  predicate MemberOf(members: map<MemberId, Member>, user: UserId, org: OrgId) {
    exists m :: m in members && ActiveAs(members[m], user, org)
  }

  predicate HasRole(members: map<MemberId, Member>, user: UserId, org: OrgId, role: Role) {
    exists m :: m in members && ActiveAs(members[m], user, org) && members[m].role == role
  }

  /* ---- What the database refuses, and what the services keep ---- */

  predicate Rivals(a: Member, b: Member) { a.active && b.active && a.user == b.user }

  /** The partial unique index on the user of active memberships. */
  ghost predicate OneMembershipEach(members: map<MemberId, Member>) {
    forall m, n :: m in members && n in members && Rivals(members[m], members[n]) ==> m == n
  }

  /** The partial unique index on the organisation of active owners. */
  ghost predicate AtMostOneOwner(members: map<MemberId, Member>) {
    forall m, n, org :: m in members && n in members && OwnerRow(members[m], org) && OwnerRow(members[n], org) ==> m == n
  }

  ghost predicate OrgInv(s: State, org: OrgId)
    requires org in s.orgs
  {
    if s.orgs[org].deleted then ActiveIds(s.members, org) == {} else |OwnerIds(s.members, org)| == 1
  }

  /** Every live organisation has exactly one active owner, a deleted one has no active member,
      and nobody is in two places. */
  ghost predicate Inv(s: State) {
    && (forall org :: org in s.orgs ==> OrgInv(s, org))
    && OneMembershipEach(s.members)
    && (forall m :: m in s.members ==> s.members[m].org in s.orgs && s.members[m].user in s.users)
    && (forall u, v :: u in s.users && v in s.users && s.users[u].authId == s.users[v].authId ==> u == v)
  }

  lemma OneMeansUnique<T(!new)>(s: set<T>, x: T, y: T)
    requires |s| == 1 && x in s && y in s
    ensures x == y
  {
    if x != y {
      SubsetSize({x, y}, s);
    }
  }

  /* ---- Memberships ---- */

  /** Inserting a membership: refused by a check, by an index, or by the owner count. */
  function WithMembership(s: State, id: MemberId, user: UserId, org: OrgId, role: Role): Result<State, Refusal> {
    if Belongs(s.members, user) then Failure(ALREADY_MEMBER)
    else if role == OWNER && OwnerIds(s.members, org) != {} then Failure(OWNER_EXISTS)
    else
      var members := s.members[id := Member(user, org, role, true)];
      if |OwnerIds(members, org)| != 1 then Failure(OWNER_INVARIANT) else Success(s.(members := members))
  }

  function OrgProblem(s: State, org: OrgId): Option<Refusal> {
    if org !in s.orgs || s.orgs[org].deleted then Some(ORGANISATION_NOT_FOUND)
    else if s.orgs[org].suspended then Some(ORGANISATION_SUSPENDED)
    else None
  }

  function UserProblem(s: State, user: UserId): Option<Refusal> {
    if user !in s.users then Some(USER_NOT_FOUND)
    else if s.users[user].suspended then Some(USER_SUSPENDED)
    else None
  }

  /** Why an actor may not touch a membership at all. */
  function ActorProblem(s: State, org: OrgId, actor: UserId): Option<Refusal> {
    if UserProblem(s, actor).Some? then UserProblem(s, actor)
    else if OrgProblem(s, org).Some? then OrgProblem(s, org)
    else if !MemberOf(s.members, actor, org) then Some(NOT_A_MEMBER)
    else None
  }

  predicate Targets(s: State, org: OrgId, target: MemberId) {
    target in s.members && s.members[target].org == org && s.members[target].active
  }

  function RoleChanged(s: State, org: OrgId, actor: UserId, target: MemberId, role: Role, limited: bool)
    : Result<State, Refusal>
  {
    if ActorProblem(s, org, actor).Some? then Failure(ActorProblem(s, org, actor).value)
    else if !Targets(s, org, target) then Failure(MEMBERSHIP_NOT_FOUND)
    else if role == OWNER then Failure(CANNOT_ASSIGN_OWNER)
    else if s.members[target].role == OWNER then Failure(OWNER_ROLE_FIXED)
    else if !HasRole(s.members, actor, org, OWNER) then Failure(ONLY_OWNER)
    else if s.members[target].role == role then Failure(SAME_ROLE)
    else if limited then Failure(RATE_LIMITED)
    else Success(s.(members := s.members[target := s.members[target].(role := role)]))
  }

  function Removed(s: State, org: OrgId, actor: UserId, target: MemberId, limited: bool): Result<State, Refusal> {
    if ActorProblem(s, org, actor).Some? then Failure(ActorProblem(s, org, actor).value)
    else if !Targets(s, org, target) then Failure(MEMBERSHIP_NOT_FOUND)
    else if s.members[target].role == OWNER then Failure(OWNER_NOT_REMOVABLE)
    else if HasRole(s.members, actor, org, MEMBER) then Failure(NOT_ALLOWED)
    else if HasRole(s.members, actor, org, ADMIN) && s.members[target].role != MEMBER then Failure(ADMIN_REMOVES_MEMBERS_ONLY)
    else if limited then Failure(RATE_LIMITED)
    else Success(s.(members := s.members[target := s.members[target].(active := false)]))
  }

  function OwnerReplaced(s: State, org: OrgId, source: MemberId, replacement: MemberId): Result<State, Refusal> {
    if source == replacement then Failure(SAME_MEMBERSHIP)
    else if !Targets(s, org, source) || !Targets(s, org, replacement) then Failure(MEMBERSHIP_NOT_FOUND)
    else if s.members[source].role != OWNER then Failure(SOURCE_NOT_OWNER)
    else if s.members[replacement].role == OWNER then Failure(REPLACEMENT_IS_OWNER)
    else Success(s.(members := s.members[source := s.members[source].(role := ADMIN)]
                                        [replacement := s.members[replacement].(role := OWNER)]))
  }

  /* ---- Organisations ---- */

  predicate SlugChars(slug: string) {
    forall i :: 0 <= i < |slug| ==> 'a' <= slug[i] <= 'z' || '0' <= slug[i] <= '9' || slug[i] == '-'
  }

  function SlugProblem(s: State, name: string, slug: string): Option<Refusal> {
    var normal := Normalised(slug);
    if Strip(name) == "" then Some(NAME_BLANK)
    else if normal == "" then Some(SLUG_BLANK)
    else if !SlugChars(normal) then Some(SLUG_INVALID)
    else if exists o :: o in s.orgs && !s.orgs[o].deleted && s.orgs[o].slug == normal then Some(SLUG_TAKEN)
    else None
  }

  function Deactivated(members: map<MemberId, Member>, org: OrgId): map<MemberId, Member> {
    map m | m in members :: if members[m].org == org then members[m].(active := false) else members[m]
  }

  function SoftDeleted(s: State, org: OrgId, actor: UserId, limited: bool): Result<State, Refusal> {
    if org !in s.orgs || s.orgs[org].deleted then Failure(ORGANISATION_NOT_FOUND)
    else if UserProblem(s, actor).Some? then Failure(UserProblem(s, actor).value)
    else if s.orgs[org].suspended then Failure(ORGANISATION_SUSPENDED)
    else if !HasRole(s.members, actor, org, OWNER) then Failure(ONLY_OWNER)
    else if limited then Failure(RATE_LIMITED)
    else Success(s.(members := Deactivated(s.members, org), orgs := s.orgs[org := s.orgs[org].(deleted := true)]))
  }

  /* ---- Users ---- */

  function UserWith(users: map<UserId, User>, authId: AuthId): set<UserId> {
    set u | u in users && users[u].authId == authId
  }

  /** The caller's user row, inserted under `newId` if there is none. */
  ghost predicate IsCurrentUser(users: map<UserId, User>, authId: AuthId, newId: UserId, user: UserId) {
    if UserWith(users, authId) == {} then user == newId else user in UserWith(users, authId)
  }

  function WithUser(s: State, authId: AuthId, newId: UserId): State {
    if UserWith(s.users, authId) == {} then s.(users := s.users[newId := User(authId, false, false)]) else s
  }

  function Onboarded(s: State, who: Identity, user: UserId, newUser: UserId, org: OrgId, id: MemberId,
                     name: string, slug: string): Result<State, Refusal>
  {
    var s1 := WithUser(s, who.authId, newUser);
    if UserProblem(s1, user).Some? then Failure(UserProblem(s1, user).value)
    else if !who.emailVerified then Failure(EMAIL_UNVERIFIED)
    else if Belongs(s1.members, user) then Failure(ALREADY_MEMBER)
    else if SlugProblem(s1, name, slug).Some? then Failure(SlugProblem(s1, name, slug).value)
    else
      var s2 := s1.(orgs := s1.orgs[org := Organisation(Strip(name), Normalised(slug), false, false)]);
      match WithMembership(s2, id, user, org, OWNER)
      case Failure(e) => Failure(e)
      case Success(s3) => Success(s3.(users := s3.users[user := s1.users[user].(onboarded := true)]))
  }

  /** Accepting the invite `invite`, the one a token leads to, if any. */
  function InviteTaken(s: State, who: Identity, invite: Option<InviteId>, user: UserId, newUser: UserId, id: MemberId)
    : Result<State, Refusal>
  {
    if invite.None? || invite.value !in s.invites then Failure(INVITE_INVALID)
    else
      var row := s.invites[invite.value];
      var s1 := WithUser(s.(invites := s.invites[invite.value := row.(status := InviteAccepted)]), who.authId, newUser);
      if who.email.None? || Lower(row.email) != Lower(who.email.value) then Failure(INVITE_FOR_OTHER_EMAIL)
      else if !who.emailVerified then Failure(EMAIL_UNVERIFIED)
      else if UserProblem(s1, user).Some? then Failure(UserProblem(s1, user).value)
      else if OrgProblem(s1, row.organisationId).Some? then Failure(OrgProblem(s1, row.organisationId).value)
      else WithMembership(s1, id, user, row.organisationId, row.role)
  }

  /** The invite a token hash leads to at a time: the usable one that carries it. */
  ghost predicate Leads(s: State, hash: TokenHash, now: Time, invite: Option<InviteId>) {
    if invite.Some? then
      invite.value in s.invites && s.invites[invite.value].tokenHash == hash && Usable(s.invites[invite.value], now)
    else
      forall i :: i in s.invites && s.invites[i].tokenHash == hash ==> !Usable(s.invites[i], now)
  }

  /** What a transaction leaves behind: its result, or, after a refusal, the state before it. */
  function Settled(s: State, r: Result<State, Refusal>): State { if r.Success? then r.value else s }

  lemma RoleIsUnique(members: map<MemberId, Member>, mine: MemberId, actor: UserId, org: OrgId)
    requires OneMembershipEach(members) && mine in members && ActiveAs(members[mine], actor, org)
    ensures forall role :: HasRole(members, actor, org, role) <==> role == members[mine].role
  {}

  /* ---- The services ---- */

  class TenancySession {
    var orgs: map<OrgId, Organisation>
    var members: map<MemberId, Member>
    var users: map<UserId, User>
    var invites: map<InviteId, Invite>

    function Value(): State
      reads this
    {
      State(orgs, members, users, invites)
    }

    method Rollback(saved: State)
      modifies this
      ensures Value() == saved
    {
      orgs, members, users, invites := saved.orgs, saved.members, saved.users, saved.invites;
    }

    method CountActiveOwners(org: OrgId) returns (n: nat)
      ensures n == |OwnerIds(members, org)|
    {
      n := |OwnerIds(members, org)|;
    }

    /** Runs inside a transaction: after a refusal the caller rolls back. */
    method CreateMembership(id: MemberId, user: UserId, org: OrgId, role: Role) returns (r: Result<MemberId, Refusal>)
      modifies this`members
      ensures var spec := WithMembership(old(Value()), id, user, org, role);
        && (r.Success? <==> spec.Success?)
        && (spec.Success? ==> r.value == id && Value() == spec.value)
        && (spec.Failure? ==> r.error == spec.error)
    {
      if Belongs(members, user) {
        return Failure(ALREADY_MEMBER);
      }
      if role == OWNER && OwnerIds(members, org) != {} {
        return Failure(OWNER_EXISTS);
      }
      members := members[id := Member(user, org, role, true)];
      var owners := CountActiveOwners(org);
      if owners != 1 {
        return Failure(OWNER_INVARIANT);
      }
      return Success(id);
    }

    method ChangeMembershipRole(org: OrgId, actor: UserId, target: MemberId, role: Role, limited: bool)
      returns (r: Result<MemberId, Refusal>)
      requires Inv(Value())
      modifies this`members
      ensures var spec := RoleChanged(old(Value()), org, actor, target, role, limited);
        Value() == Settled(old(Value()), spec) && Agrees(r, spec)
    {
      var problem := ActorProblem(Value(), org, actor);
      if problem.Some? { return Failure(problem.value); }
      if !Targets(Value(), org, target) { return Failure(MEMBERSHIP_NOT_FOUND); }
      if role == OWNER { return Failure(CANNOT_ASSIGN_OWNER); }
      if members[target].role == OWNER { return Failure(OWNER_ROLE_FIXED); }
      var mine :| mine in members && ActiveAs(members[mine], actor, org);
      if members[mine].role != OWNER { return Failure(ONLY_OWNER); }
      if members[target].role == role { return Failure(SAME_ROLE); }
      if limited { return Failure(RATE_LIMITED); }
      members := members[target := members[target].(role := role)];
      return Success(target);
    }

    method RemoveMembership(org: OrgId, actor: UserId, target: MemberId, limited: bool)
      returns (r: Result<MemberId, Refusal>)
      requires Inv(Value())
      modifies this`members
      ensures var spec := Removed(old(Value()), org, actor, target, limited);
        Value() == Settled(old(Value()), spec) && Agrees(r, spec)
    {
      hide HasRole, OrgProblem, UserProblem;
      var problem := ActorProblem(Value(), org, actor);
      if problem.Some? { return Failure(problem.value); }
      if !Targets(Value(), org, target) { return Failure(MEMBERSHIP_NOT_FOUND); }
      if members[target].role == OWNER { return Failure(OWNER_NOT_REMOVABLE); }
      var mine :| mine in members && ActiveAs(members[mine], actor, org);
      RoleIsUnique(members, mine, actor, org);
      if members[mine].role == OWNER {
      } else if members[mine].role == ADMIN {
        if members[target].role != MEMBER { return Failure(ADMIN_REMOVES_MEMBERS_ONLY); }
      } else {
        return Failure(NOT_ALLOWED);
      }
      if limited { return Failure(RATE_LIMITED); }
      members := members[target := members[target].(active := false)];
      return Success(target);
    }

    /** The source steps down before the replacement steps up, so that no flush meets two owners. */
    method ReplaceOwnerMembership(org: OrgId, source: MemberId, replacement: MemberId)
      returns (r: Result<MemberId, Refusal>)
      requires Inv(Value()) && AtMostOneOwner(members)
      modifies this`members
      ensures var spec := OwnerReplaced(old(Value()), org, source, replacement);
        Value() == Settled(old(Value()), spec) && Agrees(r, spec)
      ensures AtMostOneOwner(members)
    {
      if source == replacement { return Failure(SAME_MEMBERSHIP); }
      if !Targets(Value(), org, source) || !Targets(Value(), org, replacement) { return Failure(MEMBERSHIP_NOT_FOUND); }
      if members[source].role != OWNER { return Failure(SOURCE_NOT_OWNER); }
      if members[replacement].role == OWNER { return Failure(REPLACEMENT_IS_OWNER); }
      hide AtMostOneOwner, OwnerIds, Inv;
      ghost var before := members;
      members := members[source := members[source].(role := ADMIN)];
      DemotionIsAllowed(before, source);
      members := members[replacement := members[replacement].(role := OWNER)];
      ReplacementIsAllowed(before, org, source, replacement);
      ReplacedOwners(before, org, source, replacement);
      var owners := CountActiveOwners(org);
      if owners != 1 {
        assert false;
      }
      return Success(replacement);
    }

    method SoftDelete(org: OrgId, actor: UserId, limited: bool) returns (r: Result<OrgId, Refusal>)
      requires Inv(Value())
      modifies this`members, this`orgs
      ensures var spec := SoftDeleted(old(Value()), org, actor, limited);
        Value() == Settled(old(Value()), spec) && Agrees(r, spec)
    {
      if org !in orgs || orgs[org].deleted { return Failure(ORGANISATION_NOT_FOUND); }
      var problem := UserProblem(Value(), actor);
      if problem.Some? { return Failure(problem.value); }
      if orgs[org].suspended { return Failure(ORGANISATION_SUSPENDED); }
      if !HasRole(members, actor, org, OWNER) { return Failure(ONLY_OWNER); }
      var owners := CountActiveOwners(org);
      assert OwnerIds(members, org) != {};
      if owners < 1 {
        assert false;
      }
      if limited { return Failure(RATE_LIMITED); }
      members := Deactivated(members, org);
      orgs := orgs[org := orgs[org].(deleted := true)];
      return Success(org);
    }

    method GetOrCreateCurrentUser(who: Identity, newId: UserId) returns (user: UserId)
      requires newId !in users
      modifies this`users
      ensures Value() == WithUser(old(Value()), who.authId, newId)
      ensures IsCurrentUser(old(users), who.authId, newId, user)
    {
      var found := UserWith(users, who.authId);
      if found == {} {
        users := users[newId := User(who.authId, false, false)];
        user := newId;
      } else {
        user :| user in found;
      }
    }

    method CreateOrganisationForCurrentUser(
      who: Identity, newUser: UserId, org: OrgId, id: MemberId, name: string, slug: string)
      returns (r: Result<OrgId, Refusal>, user: UserId)
      requires newUser !in users && org !in orgs && id !in members
      modifies this
      ensures IsCurrentUser(old(users), who.authId, newUser, user)
      ensures var spec := Onboarded(old(Value()), who, user, newUser, org, id, name, slug);
        Value() == Settled(old(Value()), spec) && Agrees(r, spec)
    {
      hide SlugProblem, Normalised, Strip, WithMembership, UserProblem, Belongs;
      var saved := Value();
      user := GetOrCreateCurrentUser(who, newUser);
      var problem := UserProblem(Value(), user);
      if problem.Some? { Rollback(saved); return Failure(problem.value), user; }
      if !who.emailVerified { Rollback(saved); return Failure(EMAIL_UNVERIFIED), user; }
      if Belongs(members, user) { Rollback(saved); return Failure(ALREADY_MEMBER), user; }
      problem := SlugProblem(Value(), name, slug);
      if problem.Some? { Rollback(saved); return Failure(problem.value), user; }
      orgs := orgs[org := Organisation(Strip(name), Normalised(slug), false, false)];
      var created := CreateMembership(id, user, org, OWNER);
      if created.Failure? { Rollback(saved); return Failure(created.error), user; }
      users := users[user := users[user].(onboarded := true)];
      r := Success(org);
    }

    method AcceptInvite(hash: TokenHash, who: Identity, now: Time, newUser: UserId, id: MemberId)
      returns (r: Result<MemberId, Refusal>, user: UserId, ghost invite: Option<InviteId>)
      requires newUser !in users && id !in members
      modifies this
      ensures IsCurrentUser(old(users), who.authId, newUser, user)
      ensures Leads(old(Value()), hash, now, invite)
      ensures var spec := InviteTaken(old(Value()), who, invite, user, newUser, id);
        Value() == Settled(old(Value()), spec) && Agrees(r, spec)
    {
      hide Lower, WithMembership, UserProblem, OrgProblem;
      var saved := Value();
      user := newUser;
      if UserWith(users, who.authId) != {} { user :| user in UserWith(users, who.authId); }
      var matching := set i | i in invites && invites[i].tokenHash == hash && Usable(invites[i], now);
      if matching == {} {
        assert forall i :: i in invites ==> i !in matching;
        invite := None;
        return Failure(INVITE_INVALID), user, invite;
      }
      var found :| found in matching;
      invite := Some(found);
      var row := invites[found];
      invites := invites[found := row.(status := InviteAccepted)];
      if who.email.None? || Lower(row.email) != Lower(who.email.value) {
        Rollback(saved);
        return Failure(INVITE_FOR_OTHER_EMAIL), user, invite;
      }
      if !who.emailVerified { Rollback(saved); return Failure(EMAIL_UNVERIFIED), user, invite; }
      user := GetOrCreateCurrentUser(who, newUser);
      var problem := UserProblem(Value(), user);
      if problem.Some? { Rollback(saved); return Failure(problem.value), user, invite; }
      problem := OrgProblem(Value(), row.organisationId);
      if problem.Some? { Rollback(saved); return Failure(problem.value), user, invite; }
      r := CreateMembership(id, user, row.organisationId, row.role);
      if r.Failure? { Rollback(saved); }
    }
  }

  /** A method's answer is the specification's: the same refusal, or no refusal. */
  ghost predicate Agrees<T>(r: Result<T, Refusal>, spec: Result<State, Refusal>) {
    r.Success? == spec.Success? && (r.Failure? ==> r.error == spec.error)
  }

  lemma DemotionIsAllowed(members: map<MemberId, Member>, source: MemberId)
    requires AtMostOneOwner(members) && source in members
    ensures AtMostOneOwner(members[source := members[source].(role := ADMIN)])
  {}

  lemma ReplacementIsAllowed(members: map<MemberId, Member>, org: OrgId, source: MemberId, replacement: MemberId)
    requires source in members && replacement in members && source != replacement
    requires OwnerRow(members[source], org) && members[replacement].active && members[replacement].org == org
    requires AtMostOneOwner(members)
    ensures AtMostOneOwner(members[source := members[source].(role := ADMIN)]
                                  [replacement := members[replacement].(role := OWNER)])
  {
    var after := members[source := members[source].(role := ADMIN)][replacement := members[replacement].(role := OWNER)];
    forall m, n, o | m in after && n in after && OwnerRow(after[m], o) && OwnerRow(after[n], o) ensures m == n {
      if m != replacement { assert OwnerRow(members[m], o); }
      if n != replacement { assert OwnerRow(members[n], o); }
    }
  }

  lemma ReplacedOwners(members: map<MemberId, Member>, org: OrgId, source: MemberId, replacement: MemberId)
    requires source in members && replacement in members && source != replacement
    requires OwnerRow(members[source], org) && members[replacement].active && members[replacement].org == org
    requires AtMostOneOwner(members)
    ensures OwnerIds(members[source := members[source].(role := ADMIN)]
                            [replacement := members[replacement].(role := OWNER)], org) == {replacement}
  {}
}
