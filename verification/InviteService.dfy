/** Creating, revoking and resending invites. Each method is one transaction: on failure the
    tables are as before. */
module InviteService {
  import opened Common
  import opened Records
  import opened OutboxRepository
  import opened InviteTable
  import opened TextRules

  datatype Error = Forbidden(detail: string) | Conflict(detail: string) | NotFound(detail: string)
                 | RateLimited

  /** The payload published with a fresh token. */
  function InvitePayload(id: InviteId, invite: Invite, token: RawToken, purpose: string): Payload {
    Object(map[INVITE_ID := Id(id), ORGANISATION_ID := Id(invite.organisationId), EMAIL := Text(invite.email),
               ENCRYPTED_RAW_TOKEN := Cipher(Encrypted(token)), PURPOSE := Text(purpose),
               ROLE := Text(RoleText(invite.role))])
  }

  function RoleText(role: Role): string {
    match role case OWNER => "owner" case ADMIN => "admin" case MEMBER => "member"
  }

  function InviteCreated(db: Db, id: InviteId, invite: Invite, token: RawToken, event: EventId, now: Time): Db {
    Published(Created(db, id, invite), event, INVITE_CREATED, id, InvitePayload(id, invite, token, "created"), now)
  }

  function InviteResent(db: Db, id: InviteId, token: RawToken, event: EventId, now: Time): Db
    requires id in db.invites
  {
    var rotated := Rotated(db, id, token, now);
    Published(rotated, event, INVITE_RESEND, id, InvitePayload(id, rotated.invites[id], token, "resent"), now)
  }

  /** Who may hand out which role. */
  predicate MayInvite(actor: Role, role: Role) {
    role != OWNER && (actor == OWNER || (actor == ADMIN && role == MEMBER))
  }

  /** Who may revoke or resend an invite to which role. */
  predicate MayManage(actor: Role, role: Role) {
    actor == OWNER || (actor == ADMIN && role != ADMIN)
  }

  class InviteService {
    const session: Session

    constructor (session: Session)
      ensures this.session == session
    {
      this.session := session;
    }

    /** `actor` is the acting member's role, or why there is none. */
    method CreateInvite(id: InviteId, event: EventId, org: OrgId, actor: Result<Role, Error>, role: Role,
                        email: string, rateLimited: bool, token: RawToken, now: Time)
      returns (r: Result<InviteId, Error>)
      requires id !in session.invites && event !in session.events
      requires UniqueHashes(session.invites) && UniquePending(session.invites)
      modifies session`invites, session`events
      ensures UniqueHashes(session.invites) && UniquePending(session.invites)
      ensures var row := NewInvite(Normalised(email), org, role, token, now);
        && (r.Success? <==>
             && actor.Success? && MayInvite(actor.value, role) && !rateLimited
             && forall i :: i in old(session.invites) ==>
                  !Competing(old(session.invites)[i], row) && old(session.invites)[i].tokenHash != row.tokenHash)
        && session.State() == if r.Success? then InviteCreated(old(session.State()), id, row, token, event, now)
                              else old(session.State())
    {
      if role == OWNER {
        return Failure(Forbidden("Owner role cannot be assigned via invite"));
      }
      if actor.Failure? {
        return Failure(actor.error);
      }
      if actor.value == MEMBER {
        return Failure(Forbidden("You are not allowed to invite users"));
      }
      if actor.value == ADMIN && role == ADMIN {
        return Failure(Forbidden("Admin cannot assign admin role"));
      }
      var normalised := Normalised(email);
      var pending := set i | i in session.invites && session.invites[i].organisationId == org
        && Lower(session.invites[i].email) == Lower(normalised) && session.invites[i].status.InvitePending?;
      if pending != {} {
        var i :| i in pending;
        assert Competing(session.invites[i], NewInvite(normalised, org, role, token, now));
        return Failure(Conflict("Pending invite already exists for this email"));
      }
      if rateLimited {
        return Failure(RateLimited);
      }
      var invites := new InviteRepository(session);
      var created := invites.CreateInvite(id, normalised, org, role, token, now);
      if !created {
        return Failure(Conflict("Pending invite already exists for this email"));
      }
      var outbox := new OutboxEventRepository(session);
      outbox.CreateEvent(event, INVITE_CREATED, id, InvitePayload(id, session.invites[id], token, "created"), now);
      return Success(id);
    }

    method RevokeInvite(id: InviteId, org: OrgId, actor: Result<Role, Error>, actorUser: UserId, now: Time)
      returns (r: Result<InviteId, Error>)
      modifies session`invites
      ensures r.Success? <==>
        && actor.Success? && id in old(session.invites) && old(session.invites)[id].organisationId == org
        && old(session.invites)[id].status.InvitePending? && MayManage(actor.value, old(session.invites)[id].role)
      ensures session.State() == if r.Success? then Revoked(old(session.State()), id, actorUser, now)
                                 else old(session.State())
    {
      if actor.Failure? {
        return Failure(actor.error);
      }
      if id !in session.invites || session.invites[id].organisationId != org {
        return Failure(NotFound("Invite not found"));
      }
      var invite := session.invites[id];
      if !invite.status.InvitePending? {
        return Failure(Conflict("Only pending invite can be revoked"));
      }
      if actor.value == MEMBER {
        return Failure(Forbidden("You are not allowed to revoke invites"));
      }
      if actor.value == ADMIN && invite.role == ADMIN {
        return Failure(Forbidden("Admin can revoke member invites only"));
      }
      var invites := new InviteRepository(session);
      var revoked := invites.RevokePendingInvite(id, org, actorUser, now);
      if !revoked {
        return Failure(Conflict("Only pending invite can be revoked"));
      }
      return Success(id);
    }

    /** The decision time is read twice, before and after the rate limiter; the second reading
        decides. An expiry noticed on the way is undone with the transaction. */
    method ResendInvite(id: InviteId, event: EventId, org: OrgId, actor: Result<Role, Error>, rateLimited: bool,
                        token: RawToken, before: Time, now: Time)
      returns (r: Result<InviteId, Error>)
      requires before <= now
      requires event !in session.events
      modifies session`invites, session`events
      ensures r.Success? <==>
        && actor.Success? && id in old(session.invites) && old(session.invites)[id].organisationId == org
        && Usable(old(session.invites)[id], now) && MayManage(actor.value, old(session.invites)[id].role)
        && !rateLimited
      ensures session.State() == if r.Success? then InviteResent(old(session.State()), id, token, event, now)
                                 else old(session.State())
    {
      if actor.Failure? {
        return Failure(actor.error);
      }
      if id !in session.invites || session.invites[id].organisationId != org {
        return Failure(NotFound("Invite not found"));
      }
      var invite := session.invites[id];
      if !invite.status.InvitePending? {
        return Failure(Conflict("Only pending invite can be resent"));
      }
      if actor.value == MEMBER {
        return Failure(Forbidden("You are not allowed to resend invites"));
      }
      if actor.value == ADMIN && invite.role == ADMIN {
        return Failure(Forbidden("Admin can resend member invites only"));
      }
      if ExpiredAt(invite, before) {
        return Failure(Conflict("Invite has expired"));
      }
      if rateLimited {
        return Failure(RateLimited);
      }
      if ExpiredAt(invite, now) {
        return Failure(Conflict("Invite has expired"));
      }
      var invites := new InviteRepository(session);
      var rotated := invites.RotatePendingInviteToken(id, org, token, now);
      if !rotated {
        return Failure(Conflict("Only pending invite can be resent"));
      }
      var outbox := new OutboxEventRepository(session);
      outbox.CreateEvent(event, INVITE_RESEND, id, InvitePayload(id, session.invites[id], token, "resent"), now);
      return Success(id);
    }
  }
}
