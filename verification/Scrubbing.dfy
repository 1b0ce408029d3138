/** What erasure and retention leave of one invite or outbox row. */
module Scrubbing {
  import opened Common
  import opened Records
  import opened TextRules

  /* ---- Tombstones ---- */

  const TOMBSTONE_DOMAIN := "@anonymous.invalid"

  function ScrubbedEmail(id: InviteId): (email: string)
    ensures EndsWith(email, TOMBSTONE_DOMAIN)
  {
    "deleted-invite-" + Decimal(id) + TOMBSTONE_DOMAIN
  }

  predicate IsScrubbedInvite(i: Invite) {
    EndsWith(i.email, TOMBSTONE_DOMAIN) && i.tokenHash.ScrubbedHash?
  }

  /** No two invites get the same tombstone, so the unique indexes never refuse one. */
  lemma TombstonesDiffer(i: InviteId, j: InviteId)
    requires ScrubbedEmail(i) == ScrubbedEmail(j)
    ensures i == j
  {
    var start, a, b := "deleted-invite-", Decimal(i), Decimal(j);
    assert |start + a + TOMBSTONE_DOMAIN| == |start + b + TOMBSTONE_DOMAIN|;
    assert a == (start + a + TOMBSTONE_DOMAIN)[|start|..|start| + |a|];
    assert b == (start + b + TOMBSTONE_DOMAIN)[|start|..|start| + |b|];
    DecimalExactly(i);
    DecimalExactly(j);
  }

  lemma TombstoneIsPlain(id: InviteId)
    ensures Plain(ScrubbedEmail(id))
  {
    var start, digits := "deleted-invite-", Decimal(id);
    assert Plain(start) && Plain(digits) && Plain(TOMBSTONE_DOMAIN);
    PlainConcat(start, digits);
    PlainConcat(start + digits, TOMBSTONE_DOMAIN);
  }

  /* ---- Erasure ---- */

  const SAFE_KEYS: set<PayloadKey> := {INVITE_ID, ORGANISATION_ID, PURPOSE, ROLE}

  /** The part of a payload that identifies nobody, with two marks. */
  function SafePayload(p: Payload, mark: PayloadKey): Payload {
    var fields := if p.Object? then p.fields else map[];
    Object((map k | k in fields && k in SAFE_KEYS :: fields[k])
           [SENSITIVE_PAYLOAD_SCRUBBED := Flag(true)][mark := Flag(true)])
  }

  const ERASURE_ERROR := "privacy_erasure_scrubbed"

  /** An erased event: undelivered ones are cancelled, foreign error texts removed. */
  function ErasedEvent(e: Event): Event {
    var scrubbed := e.(payload := SafePayload(e.payload, PRIVACY_ERASURE_SCRUBBED));
    if e.status.PENDING? then
      scrubbed.(status := FAILED, lockedAt := None, nextAttemptAt := None, lastError := Some(ERASURE_ERROR))
    else if e.lastError.Some? && e.lastError.value != ERASURE_ERROR then scrubbed.(lastError := None)
    else scrubbed
  }

  predicate IsInvitee(i: Invite, email: Option<string>) {
    email.Some? && Normalised(i.email) == email.value
  }

  /** The part of erasure that concerns the person invited. */
  function ErasedInvitee(id: InviteId, i: Invite, email: Option<string>, now: Time): Invite {
    if !IsInvitee(i, email) || IsScrubbedInvite(i) then i
    else
      var anonymous := i.(email := ScrubbedEmail(id), tokenHash := ScrubbedHash(id), expiresAt := None);
      if i.status.InvitePending? then anonymous.(status := InviteRevoked, revokedAt := Some(now)) else anonymous
  }

  function ErasedInvite(id: InviteId, i: Invite, subject: UserId, email: Option<string>, now: Time): Invite {
    var anonymous := ErasedInvitee(id, i, email, now);
    if i.revokedByUserId == Some(subject) then anonymous.(revokedByUserId := None) else anonymous
  }

  /* ---- Retention ---- */

  const RETENTION_ERROR := "privacy_retention_scrubbed"

  function RetainedEvent(e: Event): Event {
    e.(payload := SafePayload(e.payload, PRIVACY_RETENTION_SCRUBBED), lockedAt := None, nextAttemptAt := None,
       lastError := if e.status.FAILED? then Some(RETENTION_ERROR) else e.lastError)
  }

  /** Whether an event still holds something retention removes. */
  predicate EventNeedsRetention(e: Event) {
    || !(e.payload.Object? && PRIVACY_RETENTION_SCRUBBED in e.payload.fields
         && e.payload.fields[PRIVACY_RETENTION_SCRUBBED] == Flag(true))
    || (e.status.FAILED? && e.lastError.Some? && e.lastError.value != RETENTION_ERROR)
    || e.lockedAt.Some? || e.nextAttemptAt.Some?
  }

  function RetainedInvite(id: InviteId, i: Invite): Invite {
    i.(email := ScrubbedEmail(id), tokenHash := ScrubbedHash(id), expiresAt := None, revokedByUserId := None)
  }

  predicate InviteNeedsRetention(i: Invite) {
    !IsScrubbedInvite(i) || i.revokedByUserId.Some? || i.expiresAt.Some?
  }

  /** The tombstone the invite service writes for invites completed long ago. */
  function AnonymisedInvite(id: InviteId, i: Invite): Invite {
    if IsScrubbedInvite(i) then i else i.(email := ScrubbedEmail(id), tokenHash := ScrubbedHash(id))
  }
}
