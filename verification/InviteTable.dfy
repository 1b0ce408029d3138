/** The invite table: conditional updates that accept, expire, revoke and rotate invites. */
module InviteTable {
  import opened Common
  import opened Records
  import opened OutboxRepository
  import opened TextRules

  const INVITE_TTL: Time := 7 * 24 * 3600 * SECOND

  /* ---- The constraints the database keeps ---- */

  /** The unique index on `token_hash`. */
  ghost predicate UniqueHashes(invites: map<InviteId, Invite>) {
    forall i, j :: i in invites && j in invites && invites[i].tokenHash == invites[j].tokenHash ==> i == j
  }

  /** The partial unique index on (organisation, lower(email)) of pending invites. */
  ghost predicate UniquePending(invites: map<InviteId, Invite>) {
    forall i, j :: i in invites && j in invites && Competing(invites[i], invites[j]) ==> i == j
  }

  predicate Competing(a: Invite, b: Invite) {
    && a.status.InvitePending? && b.status.InvitePending?
    && a.organisationId == b.organisationId && Lower(a.email) == Lower(b.email)
  }

  /* ---- What each update does ---- */

  function NewInvite(email: string, org: OrgId, role: Role, token: RawToken, now: Time): Invite {
    Invite(email, org, role, InvitePending, Sha256(token), Some(now + INVITE_TTL), None, None, now, now)
  }

  function Created(db: Db, id: InviteId, invite: Invite): Db {
    db.(invites := db.invites[id := invite])
  }

  function Accepted(db: Db, id: InviteId): Db
    requires id in db.invites
  {
    db.(invites := db.invites[id := db.invites[id].(status := InviteAccepted)])
  }

  function ExpiredById(db: Db, id: InviteId, now: Time): Db {
    if id in db.invites && db.invites[id].status.InvitePending? && ExpiredAt(db.invites[id], now)
    then db.(invites := db.invites[id := db.invites[id].(status := InviteExpired)])
    else db
  }

  function Revoked(db: Db, id: InviteId, actor: UserId, now: Time): Db
    requires id in db.invites
  {
    db.(invites := db.invites[id := db.invites[id].(status := InviteRevoked, revokedAt := Some(now),
                                                    revokedByUserId := Some(actor))])
  }

  function Rotated(db: Db, id: InviteId, token: RawToken, now: Time): Db
    requires id in db.invites
  {
    db.(invites := db.invites[id := db.invites[id].(tokenHash := Sha256(token),
                                                    expiresAt := Some(now + INVITE_TTL))])
  }

  class InviteRepository {
    const session: Session

    constructor (session: Session)
      ensures this.session == session
    {
      this.session := session;
    }

    /** Inserting a row the unique indexes refuse fails and changes nothing. */
    method CreateInvite(id: InviteId, email: string, org: OrgId, role: Role, token: RawToken, now: Time)
      returns (created: bool)
      requires id !in session.invites
      requires UniqueHashes(session.invites) && UniquePending(session.invites)
      modifies session`invites
      ensures UniqueHashes(session.invites) && UniquePending(session.invites)
      ensures var row := NewInvite(email, org, role, token, now);
        && (created <==> forall i :: i in old(session.invites) ==>
              !Competing(old(session.invites)[i], row) && old(session.invites)[i].tokenHash != row.tokenHash)
        && session.State() == if created then Created(old(session.State()), id, row) else old(session.State())
    {
      var row := NewInvite(email, org, role, token, now);
      var clashes := set i | i in session.invites
        && (Competing(session.invites[i], row) || session.invites[i].tokenHash == row.tokenHash);
      if clashes != {} {
        var i :| i in clashes;
        return false;
      }
      assert forall i :: i in session.invites ==> i !in clashes;
      session.invites := session.invites[id := row];
      created := true;
    }

    method AcceptPendingInviteByTokenHash(hash: TokenHash, now: Time) returns (accepted: Option<InviteId>)
      requires UniqueHashes(session.invites)
      modifies session`invites
      ensures accepted.None? ==>
        && session.State() == old(session.State())
        && forall i :: i in session.invites && session.invites[i].tokenHash == hash ==>
             !Usable(session.invites[i], now)
      ensures accepted.Some? ==>
        var id := accepted.value;
        && id in old(session.invites) && old(session.invites)[id].tokenHash == hash
        && Usable(old(session.invites)[id], now)
        && session.State() == Accepted(old(session.State()), id)
    {
      accepted := None;
      var matching := set i | i in session.invites
        && session.invites[i].tokenHash == hash && Usable(session.invites[i], now);
      if matching != {} {
        var id :| id in matching;
        session.invites := session.invites[id := session.invites[id].(status := InviteAccepted)];
        accepted := Some(id);
      } else {
        assert forall i :: i in session.invites ==> i !in matching;
      }
    }

    method RevokePendingInvite(id: InviteId, org: OrgId, actor: UserId, now: Time) returns (revoked: bool)
      modifies session`invites
      ensures revoked <==> id in old(session.invites) && old(session.invites)[id].organisationId == org
                           && old(session.invites)[id].status.InvitePending?
      ensures session.State() == if revoked then Revoked(old(session.State()), id, actor, now) else old(session.State())
    {
      revoked := id in session.invites && session.invites[id].organisationId == org
                 && session.invites[id].status.InvitePending?;
      if revoked {
        var row := session.invites[id];
        session.invites := session.invites[id := row.(status := InviteRevoked, revokedAt := Some(now),
                                                      revokedByUserId := Some(actor))];
      }
    }

    method RotatePendingInviteToken(id: InviteId, org: OrgId, token: RawToken, now: Time) returns (rotated: bool)
      modifies session`invites
      ensures rotated <==> id in old(session.invites) && old(session.invites)[id].organisationId == org
                           && Usable(old(session.invites)[id], now)
      ensures session.State() == if rotated then Rotated(old(session.State()), id, token, now) else old(session.State())
    {
      rotated := id in session.invites && session.invites[id].organisationId == org
                 && Usable(session.invites[id], now);
      if rotated {
        var row := session.invites[id];
        session.invites := session.invites[id := row.(tokenHash := Sha256(token),
                                                      expiresAt := Some(now + INVITE_TTL))];
      }
    }

    method MarkPendingInviteExpiredById(id: InviteId, org: OrgId, now: Time) returns (expired: bool)
      requires id in session.invites ==> session.invites[id].organisationId == org
      modifies session`invites
      ensures expired <==> id in old(session.invites) && old(session.invites)[id].status.InvitePending?
                           && ExpiredAt(old(session.invites)[id], now)
      ensures session.State() == ExpiredById(old(session.State()), id, now)
    {
      expired := id in session.invites && session.invites[id].organisationId == org
                 && session.invites[id].status.InvitePending? && ExpiredAt(session.invites[id], now);
      if expired {
        session.invites := session.invites[id := session.invites[id].(status := InviteExpired)];
      }
    }
  }
}
