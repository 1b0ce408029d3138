/** The invite and outbox steps of privacy retention: which rows are old enough and still hold
    something to remove, and how bounded steps work the backlog off. */
module Retention {
  import opened Common
  import opened Records
  import opened TextRules
  import opened Scrubbing
  import opened BoundedPasses

  const DAY: Time := 24 * 3600 * SECOND
  const OUTBOX_DELIVERY_RETENTION_DAYS := 30

  datatype Settings = Settings(acceptedDays: nat, expiredDays: nat, revokedDays: nat)

  function Coalesce(a: Option<Time>, b: Time): Time { if a.Some? then a.value else b }

  /** Completed long enough ago, counted from the date that fits the way it was completed. */
  predicate InviteIsOld(i: Invite, settings: Settings, now: Time) {
    match i.status
    case InvitePending => false
    case InviteAccepted => i.updatedAt <= now - settings.acceptedDays * DAY
    case InviteExpired => Coalesce(i.expiresAt, i.updatedAt) <= now - settings.expiredDays * DAY
    case InviteRevoked => Coalesce(i.revokedAt, i.updatedAt) <= now - settings.revokedDays * DAY
  }

  predicate EventIsOld(e: Event, now: Time) {
    Terminal(e) && Coalesce(e.processedAt, e.updatedAt) <= now - OUTBOX_DELIVERY_RETENTION_DAYS * DAY
  }

  predicate InviteDue(i: Invite, settings: Settings, now: Time) { InviteIsOld(i, settings, now) && InviteNeedsRetention(i) }

  predicate EventDue(e: Event, now: Time) { EventIsOld(e, now) && EventNeedsRetention(e) }

  /** The older batch job of the invite service: completed and untouched since before the cutoffs,
      and not a tombstone yet. */
  predicate AnonymisationDue(i: Invite, accepted: Time, expired: Time, revoked: Time) {
    && !IsScrubbedInvite(i)
    && match i.status
       case InvitePending => false
       case InviteAccepted => i.updatedAt < accepted
       case InviteExpired => i.updatedAt < expired
       case InviteRevoked => i.updatedAt < revoked
  }

  /* ---- Due rows, told by their columns; times are in microseconds ---- */

  ghost predicate IsTombstone(i: Invite) { EndsWith(i.email, "@anonymous.invalid") && i.tokenHash.ScrubbedHash? }

  /** A completed invite whose days are over and that still holds something to remove. */
  ghost predicate InviteMayGo(i: Invite, settings: Settings, now: Time) {
    && (|| (i.status == InviteAccepted && i.updatedAt + settings.acceptedDays * 86_400_000_000 <= now)
        || (i.status == InviteExpired
            && (if i.expiresAt.Some? then i.expiresAt.value else i.updatedAt) + settings.expiredDays * 86_400_000_000 <= now)
        || (i.status == InviteRevoked
            && (if i.revokedAt.Some? then i.revokedAt.value else i.updatedAt) + settings.revokedDays * 86_400_000_000 <= now))
    && (!IsTombstone(i) || i.revokedByUserId != None || i.expiresAt != None)
  }

  /** A finished event older than thirty days that still holds something to remove. */
  ghost predicate EventMayGo(e: Event, now: Time) {
    && (e.status == PROCESSED || e.status == FAILED)
    && (if e.processedAt.Some? then e.processedAt.value else e.updatedAt) + 30 * 86_400_000_000 <= now
    && (|| !e.payload.Object? || PRIVACY_RETENTION_SCRUBBED !in e.payload.fields
        || e.payload.fields[PRIVACY_RETENTION_SCRUBBED] != Flag(true)
        || (e.status == FAILED && e.lastError.Some? && e.lastError.value != "privacy_retention_scrubbed")
        || e.lockedAt != None || e.nextAttemptAt != None)
  }

  /** For the batch job: completed and untouched since before the cutoff for its outcome. */
  ghost predicate CompletedBefore(i: Invite, accepted: Time, expired: Time, revoked: Time) {
    && !IsTombstone(i)
    && (|| (i.status == InviteAccepted && i.updatedAt < accepted) || (i.status == InviteExpired && i.updatedAt < expired)
        || (i.status == InviteRevoked && i.updatedAt < revoked))
  }

  lemma DaysExactly()
    ensures DAY == 86_400_000_000
  {}

  lemma InviteDueExactly(i: Invite, settings: Settings, now: Time)
    ensures InviteDue(i, settings, now) <==> InviteMayGo(i, settings, now)
  {
    DaysExactly();
    hide DAY, EndsWith;
  }

  lemma EventDueExactly(e: Event, now: Time)
    ensures EventDue(e, now) <==> EventMayGo(e, now)
  {}

  lemma AnonymisationDueExactly(i: Invite, accepted: Time, expired: Time, revoked: Time)
    ensures AnonymisationDue(i, accepted, expired, revoked) <==> CompletedBefore(i, accepted, expired, revoked)
  {
    hide EndsWith;
  }

  /** What is left of an invite: its outcome and its dates, under a tombstone. */
  lemma RetainedInviteExactly(k: InviteId, i: Invite)
    ensures var a := RetainedInvite(k, i);
      && a.email == "deleted-invite-" + Decimal(k) + "@anonymous.invalid" && a.tokenHash == ScrubbedHash(k)
      && a.expiresAt == None && a.revokedByUserId == None
      && a.status == i.status && a.organisationId == i.organisationId && a.role == i.role
      && a.revokedAt == i.revokedAt && a.createdAt == i.createdAt && a.updatedAt == i.updatedAt
    ensures var b := AnonymisedInvite(k, i);
      if IsTombstone(i) then b == i
      else b == i.(email := "deleted-invite-" + Decimal(k) + "@anonymous.invalid", tokenHash := ScrubbedHash(k))
  {
    hide Decimal, EndsWith;
  }

  /** What is left of an event: its outcome, four members of its payload, and two marks. */
  lemma RetainedEventExactly(e: Event, key: PayloadKey)
    ensures var a := RetainedEvent(e);
      && a == e.(payload := a.payload, lockedAt := None, nextAttemptAt := None,
                 lastError := if e.status == FAILED then Some("privacy_retention_scrubbed") else e.lastError)
      && a.payload.Object?
      && (key in a.payload.fields <==>
           || key == SENSITIVE_PAYLOAD_SCRUBBED || key == PRIVACY_RETENTION_SCRUBBED
           || (e.payload.Object? && key in e.payload.fields
               && (key == INVITE_ID || key == ORGANISATION_ID || key == PURPOSE || key == ROLE)))
      && (key in a.payload.fields ==>
            a.payload.fields[key] ==
              if key == SENSITIVE_PAYLOAD_SCRUBBED || key == PRIVACY_RETENTION_SCRUBBED then Flag(true) else e.payload.fields[key])
  {}

  lemma PageCovers(page: seq<nat>, due: set<nat>, limit: nat)
    requires IsPage(page, due, limit)
    ensures |due| < limit ==> forall k :: k in due ==> k in page
  {
    if |due| < limit {
      PageHoldsAll(page, due, limit);
    }
  }

  class RetentionSession {
    var invites: map<InviteId, Invite>
    var events: map<EventId, Event>

    method AnonymiseRetainedInvites(settings: Settings, now: Time, limit: nat, dryRun: bool)
      returns (affected: nat, ghost page: seq<InviteId>)
      modifies this`invites
      ensures IsPage(page, Due(old(invites), i => InviteDue(i, settings, now)), limit)
      ensures affected == Min(limit, |Due(old(invites), i => InviteDue(i, settings, now))|)
      ensures invites == if dryRun then old(invites) else Treated(old(invites), Elements(page), RetainedInvite)
      ensures forall k :: k in page ==> k in old(invites) && InviteMayGo(old(invites)[k], settings, now)
      ensures affected < limit ==> forall k :: k in old(invites) && InviteMayGo(old(invites)[k], settings, now) ==> k in page
    {
      hide InviteDue, InviteMayGo;
      forall i { InviteDueExactly(i, settings, now); }
      var after: map<InviteId, Invite>;
      after, affected, page := Pass(invites, i => InviteDue(i, settings, now), RetainedInvite, limit, dryRun);
      PageCovers(page, Due(invites, i => InviteDue(i, settings, now)), limit);
      invites := after;
    }

    method ScrubRetainedOutboxEvents(now: Time, limit: nat, dryRun: bool)
      returns (affected: nat, ghost page: seq<EventId>)
      modifies this`events
      ensures IsPage(page, Due(old(events), e => EventDue(e, now)), limit)
      ensures affected == Min(limit, |Due(old(events), e => EventDue(e, now))|)
      ensures events == if dryRun then old(events) else Treated(old(events), Elements(page), (k, e) => RetainedEvent(e))
      ensures forall k :: k in page ==> k in old(events) && EventMayGo(old(events)[k], now)
      ensures affected < limit ==> forall k :: k in old(events) && EventMayGo(old(events)[k], now) ==> k in page
    {
      hide EventDue, EventMayGo;
      forall e { EventDueExactly(e, now); }
      var after: map<EventId, Event>;
      after, affected, page := Pass(events, e => EventDue(e, now), (k, e) => RetainedEvent(e), limit, dryRun);
      PageCovers(page, Due(events, e => EventDue(e, now)), limit);
      events := after;
    }

    method AnonymiseCompletedInvitesOlderThan(accepted: Time, expired: Time, revoked: Time, batchSize: nat)
      returns (anonymised: nat, ghost page: seq<InviteId>)
      modifies this`invites
      ensures IsPage(page, Due(old(invites), i => AnonymisationDue(i, accepted, expired, revoked)), batchSize)
      ensures anonymised == Min(batchSize, |Due(old(invites), i => AnonymisationDue(i, accepted, expired, revoked))|)
      ensures invites == Treated(old(invites), Elements(page), AnonymisedInvite)
      ensures forall k :: k in page ==> k in old(invites) && CompletedBefore(old(invites)[k], accepted, expired, revoked)
      ensures anonymised < batchSize ==>
        forall k :: k in old(invites) && CompletedBefore(old(invites)[k], accepted, expired, revoked) ==> k in page
    {
      hide AnonymisationDue, CompletedBefore;
      forall i { AnonymisationDueExactly(i, accepted, expired, revoked); }
      var after: map<InviteId, Invite>;
      after, anonymised, page :=
        Pass(invites, i => AnonymisationDue(i, accepted, expired, revoked), AnonymisedInvite, batchSize, false);
      PageCovers(page, Due(invites, i => AnonymisationDue(i, accepted, expired, revoked)), batchSize);
      invites := after;
    }
  }

  /* ---- The treatments settle what the queries look for ---- */

  lemma RetainedInviteSettled(k: InviteId, i: Invite)
    ensures !InviteNeedsRetention(RetainedInvite(k, i))
  {
    hide ScrubbedEmail;
  }

  lemma RetainedEventSettled(e: Event)
    ensures !EventNeedsRetention(RetainedEvent(e))
  {}

  lemma AnonymisedInviteSettled(k: InviteId, i: Invite)
    ensures IsScrubbedInvite(AnonymisedInvite(k, i))
  {
    hide ScrubbedEmail;
  }

  /** Repeated invite steps with the same reference time clear `n` due invites in ceil(n / limit)
      steps, not fewer, and report `n` in all. */
  lemma InviteBacklogDrains(
    ts: seq<map<InviteId, Invite>>, pages: seq<seq<InviteId>>, settings: Settings, now: Time, limit: nat)
    requires limit >= 1 && Series(ts, pages, i => InviteDue(i, settings, now), RetainedInvite, limit)
    ensures var due := (i: Invite) => InviteDue(i, settings, now);
      var n := |Due(ts[0], due)|;
      && (Due(ts[|pages|], due) == {} <==> |pages| >= PassesNeeded(n, limit))
      && (|pages| >= PassesNeeded(n, limit) ==> TotalLength(pages) == n)
  {
    var due := (i: Invite) => InviteDue(i, settings, now);
    forall k, i ensures !due(RetainedInvite(k, i)) { RetainedInviteSettled(k, i); }
    BacklogDrains(ts, pages, due, RetainedInvite, limit);
  }

  /** The same for outbox events. */
  lemma EventBacklogDrains(ts: seq<map<EventId, Event>>, pages: seq<seq<EventId>>, now: Time, limit: nat)
    requires limit >= 1 && Series(ts, pages, e => EventDue(e, now), (k, e) => RetainedEvent(e), limit)
    ensures var due := (e: Event) => EventDue(e, now);
      var n := |Due(ts[0], due)|;
      && (Due(ts[|pages|], due) == {} <==> |pages| >= PassesNeeded(n, limit))
      && (|pages| >= PassesNeeded(n, limit) ==> TotalLength(pages) == n)
  {
    var due := (e: Event) => EventDue(e, now);
    var treat := (k: nat, e: Event) => RetainedEvent(e);
    forall k, e ensures !due(treat(k, e)) { RetainedEventSettled(e); }
    BacklogDrains(ts, pages, due, treat, limit);
  }

  /** And for the batch job over completed invites. */
  lemma CompletedInviteBacklogDrains(
    ts: seq<map<InviteId, Invite>>, pages: seq<seq<InviteId>>, accepted: Time, expired: Time, revoked: Time, limit: nat)
    requires limit >= 1
    requires Series(ts, pages, i => AnonymisationDue(i, accepted, expired, revoked), AnonymisedInvite, limit)
    ensures var due := (i: Invite) => AnonymisationDue(i, accepted, expired, revoked);
      var n := |Due(ts[0], due)|;
      && (Due(ts[|pages|], due) == {} <==> |pages| >= PassesNeeded(n, limit))
      && (|pages| >= PassesNeeded(n, limit) ==> TotalLength(pages) == n)
  {
    var due := (i: Invite) => AnonymisationDue(i, accepted, expired, revoked);
    forall k, i ensures !due(AnonymisedInvite(k, i)) { AnonymisedInviteSettled(k, i); }
    BacklogDrains(ts, pages, due, AnonymisedInvite, limit);
  }

  /** Retention only ever touches rows whose work is over, and never their status. */
  lemma RetentionKeepsOutcomes(k: InviteId, i: Invite, e: Event, settings: Settings, now: Time)
    ensures InviteDue(i, settings, now) ==> !i.status.InvitePending? && RetainedInvite(k, i).status == i.status
    ensures EventDue(e, now) ==> Terminal(e) && RetainedEvent(e).status == e.status && RetainedEvent(e).attempts == e.attempts
  {
    hide ScrubbedEmail, SafePayload, IsScrubbedInvite;
  }
}
