/** Who may do what to an organisation and its members, told from the tables: each transaction
    succeeds exactly under the stated conditions, and then changes exactly the stated rows. */
module TenancyRules {
  import opened Common
  import opened Records
  import opened TextRules
  import opened Tenancy
  import opened TenancyInvariant

  ghost predicate InGoodStanding(s: State, user: UserId) { user in s.users && !s.users[user].suspended }

  ghost predicate IsOpen(s: State, org: OrgId) { org in s.orgs && !s.orgs[org].deleted && !s.orgs[org].suspended }

  ghost predicate ActsAs(s: State, user: UserId, org: OrgId, role: Role) {
    exists m :: m in s.members && s.members[m] == Member(user, org, role, true)
  }

  ghost predicate IsFree(s: State, user: UserId) {
    forall m :: m in s.members ==> !(s.members[m].active && s.members[m].user == user)
  }

  ghost predicate ActiveIn(s: State, m: MemberId, org: OrgId) { m in s.members && s.members[m].active && s.members[m].org == org }

  lemma ActsExactly(s: State, user: UserId, org: OrgId, role: Role)
    ensures HasRole(s.members, user, org, role) <==> ActsAs(s, user, org, role)
    ensures ActsAs(s, user, org, role) ==> MemberOf(s.members, user, org)
    ensures Belongs(s.members, user) <==> !IsFree(s, user)
  {
    if HasRole(s.members, user, org, role) {
      var m :| m in s.members && ActiveAs(s.members[m], user, org) && s.members[m].role == role;
      assert s.members[m] == Member(user, org, role, true);
    }
    if ActsAs(s, user, org, role) {
      var m :| m in s.members && s.members[m] == Member(user, org, role, true);
      assert ActiveAs(s.members[m], user, org) && s.members[m].role == role;
    }
  }

  /** Only the owner changes roles, of others than the owner, to something else than owner and than
      the role held so far. */
  lemma RoleChangeExactly(s: State, org: OrgId, actor: UserId, target: MemberId, role: Role, limited: bool)
    ensures var r := RoleChanged(s, org, actor, target, role, limited);
      && (r.Success? <==>
           && InGoodStanding(s, actor) && IsOpen(s, org) && ActsAs(s, actor, org, OWNER)
           && ActiveIn(s, target, org) && s.members[target].role != OWNER
           && role != OWNER && role != s.members[target].role && !limited)
      && (r.Success? ==> r.value == s.(members := s.members[target := Member(s.members[target].user, org, role, true)]))
  {
    hide HasRole, ActsAs, MemberOf;
    ActsExactly(s, actor, org, OWNER);
  }

  /** The owner removes anybody else, an admin removes plain members, and a plain member nobody. */
  lemma RemovalExactly(s: State, org: OrgId, actor: UserId, target: MemberId, limited: bool)
    requires Inv(s)
    ensures var r := Removed(s, org, actor, target, limited);
      && (r.Success? <==>
           && InGoodStanding(s, actor) && IsOpen(s, org) && ActiveIn(s, target, org) && s.members[target].role != OWNER
           && (ActsAs(s, actor, org, OWNER) || (ActsAs(s, actor, org, ADMIN) && s.members[target].role == MEMBER))
           && !limited)
      && (r.Success? ==>
            r.value == s.(members :=
              s.members[target := Member(s.members[target].user, org, s.members[target].role, false)]))
  {
    ActsExactly(s, actor, org, OWNER);
    ActsExactly(s, actor, org, ADMIN);
    ActsExactly(s, actor, org, MEMBER);
    if MemberOf(s.members, actor, org) {
      var mine :| mine in s.members && ActiveAs(s.members[mine], actor, org);
      RoleIsUnique(s.members, mine, actor, org);
    }
    hide HasRole, ActsAs, MemberOf, Inv;
  }

  /** An owner is replaced by another active member, and stays on as admin. */
  lemma ReplacementExactly(s: State, org: OrgId, source: MemberId, replacement: MemberId)
    ensures var r := OwnerReplaced(s, org, source, replacement);
      && (r.Success? <==>
           && ActiveIn(s, source, org) && ActiveIn(s, replacement, org)
           && s.members[source].role == OWNER && s.members[replacement].role != OWNER)
      && (r.Success? ==>
            r.value == s.(members :=
              s.members[source := Member(s.members[source].user, org, ADMIN, true)]
                       [replacement := Member(s.members[replacement].user, org, OWNER, true)]))
  {}

  /** Only the owner deletes an organisation; every membership in it ends with it. */
  lemma DeletionExactly(s: State, org: OrgId, actor: UserId, limited: bool, m: MemberId)
    ensures var r := SoftDeleted(s, org, actor, limited);
      && (r.Success? <==> IsOpen(s, org) && InGoodStanding(s, actor) && ActsAs(s, actor, org, OWNER) && !limited)
      && (r.Success? ==>
            && r.value == s.(members := r.value.members, orgs := s.orgs[org := s.orgs[org].(deleted := true)])
            && r.value.members.Keys == s.members.Keys
            && (m in s.members ==>
                  r.value.members[m] == s.members[m].(active := s.members[m].active && s.members[m].org != org)))
  {
    hide HasRole, ActsAs;
    ActsExactly(s, actor, org, OWNER);
  }

  /** Inserting a membership, in the words of the tables. */
  lemma InsertionExactly(s: State, id: MemberId, user: UserId, org: OrgId, role: Role)
    requires Inv(s) && org in s.orgs && id !in s.members
    ensures WithMembership(s, id, user, org, role).Success? <==> IsFree(s, user) && (role == OWNER <==> s.orgs[org].deleted)
  {
    hide WithMembership, Inv, Belongs, IsFree;
    CreationSucceedsExactlyWhen(s, id, user, org, role);
    ActsExactly(s, user, org, role);
  }

  lemma MarkingInviteKeepsInv(s: State, i: InviteId, row: Invite)
    requires Inv(s)
    ensures Inv(s.(invites := s.invites[i := row]))
  {
    hide OrgInv;
    var s' := s.(invites := s.invites[i := row]);
    forall o | o in s.orgs ensures OrgInv(s', o) { SameOrg(s, s', o); }
  }

  /** A token is accepted exactly when it leads to a pending invite that has not expired, in an
      open organisation, for a role other than owner, under the caller's own address but for case,
      which the identity provider has verified, and the caller is not suspended and belongs to no
      organisation yet. */
  lemma AcceptanceExactly(s: State, t: Step)
    requires Inv(s) && t.Accept? && Enabled(s, t)
    ensures t.invite.Some? ==>
      && t.invite.value in s.invites && s.invites[t.invite.value].tokenHash == t.hash
      && s.invites[t.invite.value].status == InvitePending
      && (s.invites[t.invite.value].expiresAt == None || s.invites[t.invite.value].expiresAt.value > t.now)
    ensures t.invite.None? ==> forall i :: i in s.invites && s.invites[i].tokenHash == t.hash ==>
      s.invites[i].status != InvitePending || (s.invites[i].expiresAt.Some? && s.invites[i].expiresAt.value <= t.now)
    ensures TenancyInvariant.Result(s, t).Success? <==>
      && t.invite.Some?
      && var row := s.invites[t.invite.value];
         && t.who.email.Some? && SameButCase(row.email, t.who.email.value) && t.who.emailVerified
         && (t.user in s.users ==> !s.users[t.user].suspended) && IsFree(s, t.user)
         && IsOpen(s, row.organisationId) && row.role != OWNER
    ensures TenancyInvariant.Result(s, t).Success? ==>
      var s' := TenancyInvariant.Result(s, t).value;
      && s'.users == (if t.user in s.users then s.users else s.users[t.user := User(t.who.authId, false, false)])
      && s'.members == s.members[t.id := Member(t.user, s.invites[t.invite.value].organisationId, s.invites[t.invite.value].role, true)]
      && s'.invites == s.invites[t.invite.value := s.invites[t.invite.value].(status := InviteAccepted)] && s'.orgs == s.orgs
  {
    hide WithMembership, Lower, SameButCase, Inv, IsFree;
    if t.invite.Some? {
      var i := t.invite.value;
      var row := s.invites[i];
      var s0 := s.(invites := s.invites[i := row.(status := InviteAccepted)]);
      var s1 := WithUser(s0, t.who.authId, t.newUser);
      MarkingInviteKeepsInv(s, i, row.(status := InviteAccepted));
      NewUserKeepsInv(s0, t.who.authId, t.newUser);
      SameMembersSameFreedom(s, s1, t.user);
      if t.who.email.Some? { LowerExactly(row.email, t.who.email.value); }
      if row.organisationId in s.orgs {
        InsertionExactly(s1, t.id, t.user, row.organisationId, row.role);
      }
      if WithMembership(s1, t.id, t.user, row.organisationId, row.role).Success? {
        MembershipOnly(s1, t.id, t.user, row.organisationId, row.role);
      }
    }
  }

  lemma SameMembersSameFreedom(s: State, s': State, user: UserId)
    requires s.members == s'.members
    ensures IsFree(s, user) <==> IsFree(s', user)
  {}

  /** A caller founds an organisation exactly when the address is verified, the caller is not
      suspended and belongs to none, the name is not blank, and the slug, in small letters, is a
      new one of letters, digits and dashes. The caller becomes its owner. */
  lemma OnboardingExactly(s: State, t: Step)
    requires Inv(s) && t.Onboard? && Enabled(s, t)
    ensures TenancyInvariant.Result(s, t).Success? <==>
      && (t.user in s.users ==> !s.users[t.user].suspended) && t.who.emailVerified && IsFree(s, t.user)
      && Strip(t.name) != "" && Normalised(t.slug) != ""
      && (forall i :: 0 <= i < |Normalised(t.slug)| ==>
            var c := Normalised(t.slug)[i]; 'a' <= c <= 'z' || '0' <= c <= '9' || c == '-')
      && (forall o :: o in s.orgs && s.orgs[o].slug == Normalised(t.slug) ==> s.orgs[o].deleted)
    ensures TenancyInvariant.Result(s, t).Success? ==>
      var s' := TenancyInvariant.Result(s, t).value;
      && s'.orgs == s.orgs[t.org := Organisation(Strip(t.name), Normalised(t.slug), false, false)]
      && s'.members == s.members[t.id := Member(t.user, t.org, OWNER, true)]
      && s'.users == s.users[t.user := User(t.who.authId, false, true)]
      && s'.invites == s.invites
  {
    hide WithMembership, Strip, Normalised, Inv, IsFree, SlugChars;
    var s1 := WithUser(s, t.who.authId, t.newUser);
    var s2 := s1.(orgs := s1.orgs[t.org := Organisation(Strip(t.name), Normalised(t.slug), false, false)]);
    SameMembersSameFreedom(s, s1, t.user);
    ActsExactly(s1, t.user, t.org, OWNER);
    FirstMember(s, s2, t.id, t.user, t.org);
    SlugExactly(s1, t.name, t.slug);
  }

  lemma SlugExactly(s: State, name: string, slug: string)
    ensures SlugProblem(s, name, slug).None? <==>
      && Strip(name) != "" && Normalised(slug) != ""
      && (forall i :: 0 <= i < |Normalised(slug)| ==>
            var c := Normalised(slug)[i]; 'a' <= c <= 'z' || '0' <= c <= '9' || c == '-')
      && (forall o :: o in s.orgs && s.orgs[o].slug == Normalised(slug) ==> s.orgs[o].deleted)
  {
    hide Strip, Normalised;
  }

  /** A new organisation has nobody in it, so its first member may be its owner. */
  lemma FirstMember(s: State, s2: State, id: MemberId, user: UserId, org: OrgId)
    requires Inv(s) && org !in s.orgs && s2.members == s.members && id !in s.members
    ensures IsFree(s, user) <==> WithMembership(s2, id, user, org, OWNER).Success?
    ensures IsFree(s, user) ==>
      WithMembership(s2, id, user, org, OWNER).value == s2.(members := s.members[id := Member(user, org, OWNER, true)])
  {
    OwnersAfterInsertion(s.members, id, user, org, OWNER);
    assert OwnerIds(s.members, org) == {};
    hide OwnerIds, Inv;
    ActsExactly(s2, user, org, OWNER);
    SameMembersSameFreedom(s, s2, user);
  }
}
