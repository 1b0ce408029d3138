/** The rows of the invite and outbox tables, as the services and workers see them. */
module Records {
  import opened Common

  type EventId = nat
  type InviteId = nat
  type UserId = nat
  type OrgId = nat

  /** A raw invite token, as drawn by the token generator. */
  type RawToken = nat

  /** The one-shot token under which a worker owns a delivery. */
  type ClaimToken = nat

  /** Timestamps and durations, in microseconds. */
  type Time = int
  const SECOND: Time := 1_000_000

  datatype Role = OWNER | ADMIN | MEMBER

  /* ---- Cryptography, taken as ideal ---- */

  /** The `token_hash` column: a digest (free of collisions), or the tombstone that
      anonymisation writes for an invite. */
  datatype TokenHash = Sha256(token: RawToken) | ScrubbedHash(invite: InviteId)

  /** A stored ciphertext: one the service encrypted, or text that does not decrypt. */
  datatype Ciphertext = Encrypted(raw: RawToken) | Undecryptable(text: string)

  function Decrypt(c: Ciphertext): Option<RawToken> {
    match c
    case Encrypted(raw) => Some(raw)
    case Undecryptable(_) => None
  }

  /* ---- Outbox ---- */

  datatype EventStatus = PENDING | PROCESSING | PROCESSED | FAILED

  datatype EventType = INVITE_CREATED | INVITE_RESEND | OTHER_TYPE(name: string)

  datatype PayloadKey =
    | INVITE_ID | ORGANISATION_ID | EMAIL | ENCRYPTED_RAW_TOKEN | PURPOSE | ROLE
    | SENSITIVE_PAYLOAD_SCRUBBED | PRIVACY_ERASURE_SCRUBBED | PRIVACY_RETENTION_SCRUBBED
    | OTHER_KEY(name: string)

  datatype PayloadValue =
    | Null | Flag(flag: bool) | Id(id: nat) | Text(text: string) | Cipher(cipher: Ciphertext)

  /** `payload_json`: a JSON object, or any other JSON value. */
  datatype Payload = NotAnObject | Object(fields: map<PayloadKey, PayloadValue>)

  datatype Event = Event(
    eventType: EventType,
    aggregateId: Option<InviteId>,
    payload: Payload,
    status: EventStatus,
    attempts: nat,
    maxAttempts: int,
    nextAttemptAt: Option<Time>,
    lockedAt: Option<Time>,
    processedAt: Option<Time>,
    lastError: Option<string>,
    createdAt: Time,
    updatedAt: Time)

  datatype Claim = Claim(token: ClaimToken, claimedAt: Time)

  /** The default of the `max_attempts` column, which no publisher overrides. */
  const DEFAULT_MAX_ATTEMPTS := 10

  predicate Terminal(e: Event) { e.status.PROCESSED? || e.status.FAILED? }

  predicate IsInviteEvent(e: Event) { e.eventType.INVITE_CREATED? || e.eventType.INVITE_RESEND? }

  /* ---- Invites ---- */

  datatype InviteStatus = InvitePending | InviteAccepted | InviteExpired | InviteRevoked

  datatype Invite = Invite(
    email: string,
    organisationId: OrgId,
    role: Role,
    status: InviteStatus,
    tokenHash: TokenHash,
    expiresAt: Option<Time>,
    revokedAt: Option<Time>,
    revokedByUserId: Option<UserId>,
    createdAt: Time,
    updatedAt: Time)

  predicate ExpiredAt(i: Invite, now: Time) { i.expiresAt.Some? && i.expiresAt.value <= now }

  /** Pending and not past its expiry: the invites an acceptance or a delivery may use. */
  predicate Usable(i: Invite, now: Time) { i.status.InvitePending? && !ExpiredAt(i, now) }
}
