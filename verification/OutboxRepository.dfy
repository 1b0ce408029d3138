/** The outbox tables and the repository that moves events through their life cycle. */
module OutboxRepository {
  import opened Common
  import opened Records

  /** The contents of the outbox, claim and invite tables between two transactions. */
  datatype Db = Db(
    events: map<EventId, Event>,
    claims: map<EventId, Claim>,
    invites: map<InviteId, Invite>)

  /* ---- What each operation does to the one row it touches ---- */

  const SENSITIVE_KEYS: set<PayloadKey> := {EMAIL, ENCRYPTED_RAW_TOKEN}

  /** The payload a terminal invite event keeps: no address, no ciphertext. */
  function ScrubbedDelivery(e: Event): Payload {
    if IsInviteEvent(e) && e.payload.Object? then
      Object((map k | k in e.payload.fields && k !in SENSITIVE_KEYS :: e.payload.fields[k])
             [SENSITIVE_PAYLOAD_SCRUBBED := Flag(true)])
    else e.payload
  }

  predicate Due(e: Event, now: Time) {
    e.status.PENDING? && (e.nextAttemptAt.None? || e.nextAttemptAt.value <= now)
  }

  predicate Stale(e: Event, timeout: Time, now: Time) {
    e.status.PROCESSING? && e.lockedAt.Some? && e.lockedAt.value < now - timeout
  }

  function DueIds(events: map<EventId, Event>, locked: set<EventId>, now: Time): set<EventId> {
    set id | id in events && id !in locked && Due(events[id], now)
  }

  function StaleIds(events: map<EventId, Event>, locked: set<EventId>, timeout: Time, now: Time): set<EventId> {
    set id | id in events && id !in locked && Stale(events[id], timeout, now)
  }

  function ClaimedRow(e: Event, now: Time): Event {
    e.(status := PROCESSING, lockedAt := Some(now), updatedAt := now)
  }

  function ReservedRow(e: Event, now: Time): Event {
    e.(lockedAt := Some(now), updatedAt := now)
  }

  function ProcessedRow(e: Event, now: Time): Event {
    e.(status := PROCESSED, processedAt := Some(now), lockedAt := None, lastError := None,
       updatedAt := now, payload := ScrubbedDelivery(e))
  }

  function {:induction false} Pow2(n: nat): (p: nat)
    ensures p >= 1
  {
    if n == 0 then 1 else 2 * Pow2(n - 1)
  }

  /** Another try after 2^attempts seconds, or the end of the event's life. */
  function FailedRow(e: Event, error: string, now: Time): Event {
    var counted := e.(attempts := e.attempts + 1, lockedAt := None, updatedAt := now,
                      lastError := Some(if |error| <= 500 then error else error[..500]));
    if counted.attempts >= e.maxAttempts
    then counted.(status := FAILED, nextAttemptAt := None, payload := ScrubbedDelivery(e))
    else counted.(status := PENDING, nextAttemptAt := Some(now + Pow2(counted.attempts) * SECOND))
  }

  /* ---- What each operation does to the tables ---- */

  function Without(claims: map<EventId, Claim>, id: EventId): map<EventId, Claim> { claims - {id} }

  function ClaimedAll(db: Db, ids: set<EventId>, now: Time): Db {
    db.(events := map id | id in db.events ::
                    if id in ids then ClaimedRow(db.events[id], now) else db.events[id],
        claims := db.claims - ids)
  }

  /** Whether an event can be handed to a worker: in flight, and nobody owns it yet. */
  predicate Claimable(db: Db, id: EventId) {
    id in db.events && db.events[id].status.PROCESSING? && id !in db.claims
  }

  function Reserved(db: Db, id: EventId, token: ClaimToken, now: Time): Db {
    if Claimable(db, id) then
      db.(events := db.events[id := ReservedRow(db.events[id], now)],
          claims := db.claims[id := Claim(token, now)])
    else db
  }

  /** The event a worker may still settle: in flight, under exactly this worker's token. */
  predicate Owns(db: Db, id: EventId, token: ClaimToken) {
    && id in db.events && db.events[id].status.PROCESSING?
    && id in db.claims && db.claims[id].token == token
  }

  function Settled(db: Db, id: EventId, now: Time): Db
    requires id in db.events
  {
    db.(events := db.events[id := ProcessedRow(db.events[id], now)],
        claims := Without(db.claims, id))
  }

  function Failed(db: Db, id: EventId, error: string, now: Time): Db
    requires id in db.events
  {
    db.(events := db.events[id := FailedRow(db.events[id], error, now)],
        claims := Without(db.claims, id))
  }

  function Released(db: Db, id: EventId, error: string, now: Time): Db {
    if id in db.events && db.events[id].status.PROCESSING? then Failed(db, id, error, now) else db
  }

  const STALE_ERROR := "stale_processing_recovered"

  function Recovered(db: Db, ids: set<EventId>, now: Time): Db {
    db.(events := map id | id in db.events ::
                    if id in ids then FailedRow(db.events[id], STALE_ERROR, now) else db.events[id],
        claims := db.claims - ids)
  }

  function Published(db: Db, id: EventId, eventType: EventType, invite: InviteId,
                     payload: Payload, now: Time): Db {
    db.(events := db.events[id := Event(eventType, Some(invite), payload, PENDING, 0,
                                        DEFAULT_MAX_ATTEMPTS, None, None, None, None, now, now)])
  }

  /* ---- What the queries take ---- */

  /** A claim takes exactly pending events whose wait, if any, is over and that nobody holds; if
      its limit is not reached, or covers the table, it takes all of them. */
  lemma ClaimTakes(events: map<EventId, Event>, locked: set<EventId>, now: Time, limit: nat, page: seq<EventId>)
    requires IsPage(page, DueIds(events, locked, now), limit)
    ensures forall id :: id in page ==>
      && id in events && id !in locked && events[id].status == PENDING
      && (events[id].nextAttemptAt == None || events[id].nextAttemptAt.value <= now)
    ensures (|page| < limit || |events| <= limit) ==> forall id ::
      (&& id in events && id !in locked && events[id].status == PENDING
       && (events[id].nextAttemptAt == None || events[id].nextAttemptAt.value <= now)) ==> id in page
  {
    SubsetSize(DueIds(events, locked, now), events.Keys);
    if |page| < limit || |events| <= limit {
      PageHoldsAll(page, DueIds(events, locked, now), limit);
    }
  }

  /** A recovery takes exactly events in flight that were locked longer ago than the timeout and
      that nobody holds; if its limit is not reached, or covers the table, it takes all of them. */
  lemma RecoveryTakes(
    events: map<EventId, Event>, locked: set<EventId>, timeout: Time, now: Time, limit: nat, page: seq<EventId>)
    requires IsPage(page, StaleIds(events, locked, timeout, now), limit)
    ensures forall id :: id in page ==>
      && id in events && id !in locked && events[id].status == PROCESSING
      && events[id].lockedAt.Some? && events[id].lockedAt.value + timeout < now
    ensures (|page| < limit || |events| <= limit) ==> forall id ::
      (&& id in events && id !in locked && events[id].status == PROCESSING
       && events[id].lockedAt.Some? && events[id].lockedAt.value + timeout < now) ==> id in page
  {
    SubsetSize(StaleIds(events, locked, timeout, now), events.Keys);
    if |page| < limit || |events| <= limit {
      PageHoldsAll(page, StaleIds(events, locked, timeout, now), limit);
    }
  }

  /** The unit of work: the tables as the current transaction sees them. */
  class Session {
    var events: map<EventId, Event>
    var claims: map<EventId, Claim>
    var invites: map<InviteId, Invite>

    ghost function State(): Db
      reads this
    {
      Db(events, claims, invites)
    }

    constructor ()
      ensures State() == Db(map[], map[], map[])
    {
      events, claims, invites := map[], map[], map[];
    }
  }

  class OutboxEventRepository {
    const session: Session

    constructor (session: Session)
      ensures this.session == session
    {
      this.session := session;
    }

    method CreateEvent(id: EventId, eventType: EventType, invite: InviteId, payload: Payload, now: Time)
      requires id !in session.events
      modifies session`events
      ensures session.State() == Published(old(session.State()), id, eventType, invite, payload, now)
    {
      var row := Event(eventType, Some(invite), payload, PENDING, 0, DEFAULT_MAX_ATTEMPTS,
                       None, None, None, None, now, now);
      session.events := session.events[id := row];
    }

    /** `locked` are the rows another transaction holds, which the query skips. */
    method ClaimDueEvents(limit: nat, locked: set<EventId>, now: Time) returns (ids: seq<EventId>)
      modifies session`events, session`claims
      ensures IsPage(ids, DueIds(old(session.events), locked, now), limit)
      ensures forall id :: id in ids ==>
        && id in old(session.events) && id !in locked && old(session.events)[id].status == PENDING
        && (old(session.events)[id].nextAttemptAt == None || old(session.events)[id].nextAttemptAt.value <= now)
      ensures |ids| < limit ==> forall id ::
        (&& id in old(session.events) && id !in locked && old(session.events)[id].status == PENDING
         && (old(session.events)[id].nextAttemptAt == None || old(session.events)[id].nextAttemptAt.value <= now)) ==> id in ids
      ensures session.State() == ClaimedAll(old(session.State()), Elements(ids), now)
    {
      hide Due;
      ids := SelectPage(DueIds(session.events, locked, now), limit);
      ghost var before := session.State();
      for k := 0 to |ids|
        invariant session.invites == before.invites
        invariant session.events.Keys == before.events.Keys
        invariant forall id :: id in before.events ==>
          session.events[id] == if id in ids[..k] then ClaimedRow(before.events[id], now)
                                else before.events[id]
        invariant session.claims == before.claims - Elements(ids[..k])
      {
        assert ids[k] in ids && ids[k] !in ids[..k];
        assert Elements(ids[..k + 1]) == Elements(ids[..k]) + {ids[k]};
        ClearDeliveryClaim(ids[k]);
        var row := session.events[ids[k]];
        row := row.(status := PROCESSING);
        row := row.(lockedAt := Some(now));
        row := row.(updatedAt := now);
        session.events := session.events[ids[k] := row];
      }
      ClaimTakes(before.events, locked, now, limit, ids);
      assert ids[..|ids|] == ids;
    }

    method ClaimProcessingEventForDelivery(id: EventId, token: ClaimToken, now: Time)
      returns (event: Option<Event>)
      modifies session`events, session`claims
      ensures event.Some? <==> Claimable(old(session.State()), id)
      ensures event.Some? ==> id in session.events && event.value == session.events[id]
      ensures session.State() == Reserved(old(session.State()), id, token, now)
    {
      if id !in session.events || !session.events[id].status.PROCESSING? {
        return None;
      }
      if id in session.claims {
        return None;
      }
      session.claims := session.claims[id := Claim(token, now)];
      var row := session.events[id];
      row := row.(lockedAt := Some(now));
      row := row.(updatedAt := now);
      session.events := session.events[id := row];
      event := Some(row);
    }

    method GetDeliveryClaimedEvent(id: EventId, token: ClaimToken) returns (event: Option<Event>)
      ensures event.Some? <==> Owns(session.State(), id, token)
      ensures event.Some? ==> event.value == session.events[id]
    {
      if id in session.events && id in session.claims
         && session.events[id].status.PROCESSING? && session.claims[id].token == token {
        event := Some(session.events[id]);
      } else {
        event := None;
      }
    }

    method ClearDeliveryClaim(id: EventId)
      modifies session`claims
      ensures session.claims == old(session.claims) - {id}
    {
      session.claims := session.claims - {id};
    }

    method MarkProcessed(id: EventId, now: Time)
      requires id in session.events
      modifies session`events, session`claims
      ensures session.State() == Settled(old(session.State()), id, now)
    {
      ClearDeliveryClaim(id);
      var row := session.events[id];
      row := row.(status := PROCESSED);
      row := row.(processedAt := Some(now));
      row := row.(lockedAt := None);
      row := row.(lastError := None);
      row := row.(updatedAt := now);
      row := row.(payload := ScrubbedDelivery(row));
      session.events := session.events[id := row];
    }

    method MarkFailedAttempt(id: EventId, error: string, now: Time)
      requires id in session.events
      modifies session`events, session`claims
      ensures session.State() == Failed(old(session.State()), id, error, now)
    {
      var row := session.events[id];
      var attempts := row.attempts + 1;
      ClearDeliveryClaim(id);
      row := row.(attempts := attempts);
      row := row.(lockedAt := None);
      row := row.(lastError := Some(if |error| <= 500 then error else error[..500]));
      if attempts >= row.maxAttempts {
        row := row.(status := FAILED);
        row := row.(nextAttemptAt := None);
        row := row.(payload := ScrubbedDelivery(row));
      } else {
        row := row.(status := PENDING);
        row := row.(nextAttemptAt := Some(now + Pow2(attempts) * SECOND));
      }
      row := row.(updatedAt := now);
      session.events := session.events[id := row];
    }

    method ReleaseProcessingEventForRetry(id: EventId, error: string, now: Time)
      requires id in session.events
      modifies session`events, session`claims
      ensures session.State() == Released(old(session.State()), id, error, now)
    {
      if session.events[id].status != PROCESSING {
        return;
      }
      MarkFailedAttempt(id, error, now);
    }

    method RecoverStaleProcessingEvents(timeout: Time, limit: nat, locked: set<EventId>, now: Time)
      returns (ids: seq<EventId>)
      modifies session`events, session`claims
      ensures IsPage(ids, StaleIds(old(session.events), locked, timeout, now), limit)
      ensures forall id :: id in ids ==>
        && id in old(session.events) && id !in locked && old(session.events)[id].status == PROCESSING
        && old(session.events)[id].lockedAt.Some? && old(session.events)[id].lockedAt.value + timeout < now
      ensures |ids| < limit ==> forall id ::
        (&& id in old(session.events) && id !in locked && old(session.events)[id].status == PROCESSING
         && old(session.events)[id].lockedAt.Some? && old(session.events)[id].lockedAt.value + timeout < now) ==> id in ids
      ensures session.State() == Recovered(old(session.State()), Elements(ids), now)
    {
      hide Stale, FailedRow;
      ids := SelectPage(StaleIds(session.events, locked, timeout, now), limit);
      ghost var before := session.State();
      for k := 0 to |ids|
        invariant session.invites == before.invites
        invariant session.events.Keys == before.events.Keys
        invariant forall id :: id in before.events ==>
          session.events[id] == if id in ids[..k] then FailedRow(before.events[id], STALE_ERROR, now)
                                else before.events[id]
        invariant session.claims == before.claims - Elements(ids[..k])
      {
        assert ids[k] in ids && ids[k] !in ids[..k];
        assert Elements(ids[..k + 1]) == Elements(ids[..k]) + {ids[k]};
        MarkFailedAttempt(ids[k], STALE_ERROR, now);
      }
      RecoveryTakes(before.events, locked, timeout, now, limit, ids);
      assert ids[..|ids|] == ids;
    }
  }
}
