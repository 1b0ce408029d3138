/** The worker side of invite delivery: take a claim, decide, deliver, report back. */
module Worker {
  import opened Common
  import opened Records
  import opened OutboxRepository
  import opened InviteTable
  import opened TextRules

  /** What the claiming transaction tells the worker to do next. */
  datatype Action =
    | Skip
    | MarkProcessed
    | MalformedPayload
    | InviteNotFound
    | DecryptionFailed
    | TokenHashMismatch
    | Deliver(raw: RawToken, invite: InviteId)

  datatype ParsedPayload = ParsedPayload(invite: InviteId, cipher: Ciphertext)

  function Field(p: Payload, k: PayloadKey): PayloadValue {
    if p.Object? && k in p.fields then p.fields[k] else Null
  }

  /** The schema check: an invite id and a ciphertext that is not blank, and if present, an
      organisation id, an address, a known purpose and a known role. */
  function ParsePayload(p: Payload): Option<ParsedPayload> {
    var cipher := match Field(p, ENCRYPTED_RAW_TOKEN)
      case Cipher(c) => Some(c)
      case Text(t) => Some(Undecryptable(t))
      case _ => None;
    var organisation, email, purpose, role :=
      Field(p, ORGANISATION_ID), Field(p, EMAIL), Field(p, PURPOSE), Field(p, ROLE);
    if p.Object? && Field(p, INVITE_ID).Id? && cipher.Some?
       && !(cipher.value.Undecryptable? && IsBlank(cipher.value.text))
       && (organisation.Null? || organisation.Id?)
       && (email.Null? || email.Text?)
       && (purpose.Null? || (purpose.Text? && purpose.text in {"created", "resent"}))
       && (role.Null? || (role.Text? && role.text in {"owner", "admin", "member"}))
    then Some(ParsedPayload(Field(p, INVITE_ID).id, cipher.value))
    else None
  }

  /** What a worker that has just reserved `e` decides. */
  function Decide(e: Event, invites: map<InviteId, Invite>, deliveryEnabled: bool, now: Time): Action {
    if !IsInviteEvent(e) then MarkProcessed
    else match ParsePayload(e.payload)
      case None => MalformedPayload
      case Some(payload) =>
        if payload.invite !in invites then InviteNotFound
        else
          var invite := invites[payload.invite];
          if !Usable(invite, now) || !deliveryEnabled then MarkProcessed
          else match Decrypt(payload.cipher)
            case None => DecryptionFailed
            case Some(raw) =>
              if Sha256(raw) != invite.tokenHash then TokenHashMismatch else Deliver(raw, payload.invite)
  }

  /** The invite a decision may find expired and marks so. */
  function ExpiredByDecision(db: Db, e: Event, now: Time): Db {
    if IsInviteEvent(e) && ParsePayload(e.payload).Some?
    then ExpiredById(db, ParsePayload(e.payload).value.invite, now)
    else db
  }

  /** The claiming transaction as one step. */
  function Granted(db: Db, id: EventId, token: ClaimToken, deliveryEnabled: bool, now: Time): (Action, Db) {
    if !Claimable(db, id) then (Skip, db)
    else
      var e := db.events[id];
      (Decide(e, db.invites, deliveryEnabled, now), ExpiredByDecision(Reserved(db, id, token, now), e, now))
  }

  /** The reporting transaction as one step: it settles the event only under the token that
      currently owns it. */
  function Reported(db: Db, id: EventId, token: ClaimToken, success: bool, error: Option<string>, now: Time): Db {
    if !Owns(db, id, token) then db
    else if success then Settled(db, id, now)
    else if error.Some? then Failed(db, id, error.value, now)
    else db
  }

  method GetClaimedEventContext(session: Session, id: EventId, token: ClaimToken, deliveryEnabled: bool, now: Time)
    returns (action: Action)
    modifies session`events, session`claims, session`invites
    ensures (action, session.State()) == Granted(old(session.State()), id, token, deliveryEnabled, now)
  {
    var repository := new OutboxEventRepository(session);
    var event := repository.ClaimProcessingEventForDelivery(id, token, now);
    if event.None? {
      return Skip;
    }
    if !IsInviteEvent(event.value) {
      return MarkProcessed;
    }
    var payload := ParsePayload(event.value.payload);
    if payload.None? {
      return MalformedPayload;
    }
    if payload.value.invite !in session.invites {
      return InviteNotFound;
    }
    var invite := session.invites[payload.value.invite];
    if !invite.status.InvitePending? {
      return MarkProcessed;
    }
    var invites := new InviteRepository(session);
    var expired := invites.MarkPendingInviteExpiredById(payload.value.invite, invite.organisationId, now);
    if expired {
      return MarkProcessed;
    }
    if !deliveryEnabled {
      return MarkProcessed;
    }
    var raw := Decrypt(payload.value.cipher);
    if raw.None? {
      return DecryptionFailed;
    }
    if Sha256(raw.value) != invite.tokenHash {
      return TokenHashMismatch;
    }
    return Deliver(raw.value, payload.value.invite);
  }

  method ApplyResult(session: Session, id: EventId, token: ClaimToken, success: bool, error: Option<string>, now: Time)
    modifies session`events, session`claims
    ensures session.State() == Reported(old(session.State()), id, token, success, error, now)
  {
    var repository := new OutboxEventRepository(session);
    var event := repository.GetDeliveryClaimedEvent(id, token);
    if event.None? {
      return;
    }
    if success {
      repository.MarkProcessed(id, now);
    } else if error.Some? {
      repository.MarkFailedAttempt(id, error.value, now);
    }
  }

  /** The name under which a decision that cannot be delivered is recorded. */
  function FailureOf(action: Action): Option<string> {
    match action
    case MalformedPayload => Some("malformed_outbox_payload")
    case InviteNotFound => Some("invite_not_found")
    case DecryptionFailed => Some("outbox_payload_decryption_failed")
    case TokenHashMismatch => Some("token_hash_mismatch")
    case _ => None
  }

  /** One worker run with nobody else active. `sinkError` is what the delivery raised, if
      anything; `sent` tells whether the sink was asked to deliver. */
  method ProcessOutboxEvent(session: Session, id: EventId, token: ClaimToken, deliveryEnabled: bool,
                            sinkError: Option<string>, claimedAt: Time, reportedAt: Time)
    returns (sent: Option<(RawToken, InviteId)>)
    modifies session`events, session`claims, session`invites
    ensures var (action, granted) := Granted(old(session.State()), id, token, deliveryEnabled, claimedAt);
      && (sent.Some? <==> action.Deliver?)
      && (sent.Some? ==> sent.value == (action.raw, action.invite))
      && session.State() ==
         match action
         case Skip => old(session.State())
         case MarkProcessed => Reported(granted, id, token, true, None, reportedAt)
         case Deliver(_, _) => Reported(granted, id, token, sinkError.None?,
             if sinkError.Some? then Some("delivery_failed:" + sinkError.value) else None, reportedAt)
         case _ => Reported(granted, id, token, false, FailureOf(action), reportedAt)
  {
    sent := None;
    var action := GetClaimedEventContext(session, id, token, deliveryEnabled, claimedAt);
    if action.Skip? {
      return;
    }
    if action.MarkProcessed? {
      ApplyResult(session, id, token, true, None, reportedAt);
      return;
    }
    if !action.Deliver? {
      ApplyResult(session, id, token, false, FailureOf(action), reportedAt);
      return;
    }
    sent := Some((action.raw, action.invite));
    if sinkError.Some? {
      ApplyResult(session, id, token, false, Some("delivery_failed:" + sinkError.value), reportedAt);
    } else {
      ApplyResult(session, id, token, true, None, reportedAt);
    }
  }
}
