/** The dispatcher side: recover what went stale, claim what is due, hand it to the broker. */
module Dispatcher {
  import opened Common
  import opened Records
  import opened OutboxRepository

  /** The error under which an event is released when the broker refuses it. */
  function EnqueueError(reason: string): string { "enqueue_failed:" + reason }

  /** Whether an event of this tick ended up with the broker or back in the table. */
  function DispatchedRow(e: Event, refusal: Option<string>, claimedAt: Time, releasedAt: Time): Event {
    if refusal.None? then ClaimedRow(e, claimedAt)
    else FailedRow(ClaimedRow(e, claimedAt), EnqueueError(refusal.value), releasedAt)
  }

  method RecoverStale(session: Session, timeout: Time, batch: nat, locked: set<EventId>, now: Time)
    returns (count: nat)
    modifies session`events, session`claims
    ensures exists ids :: IsPage(ids, StaleIds(old(session.events), locked, timeout, now), batch)
              && count == |ids| && session.State() == Recovered(old(session.State()), Elements(ids), now)
              && (forall id :: id in ids ==>
                    && id in old(session.events) && id !in locked && old(session.events)[id].status == PROCESSING
                    && old(session.events)[id].lockedAt.Some? && old(session.events)[id].lockedAt.value + timeout < now)
              && (count < batch ==> forall id ::
                    (&& id in old(session.events) && id !in locked && old(session.events)[id].status == PROCESSING
                     && old(session.events)[id].lockedAt.Some?
                     && old(session.events)[id].lockedAt.value + timeout < now) ==> id in ids)
  {
    var repository := new OutboxEventRepository(session);
    var ids := repository.RecoverStaleProcessingEvents(timeout, batch, locked, now);
    count := |ids|;
  }

  /** The tables after the events `refused` by the broker were released one after the other. */
  function ReleasedAll(db: Db, refused: set<EventId>, broker: map<EventId, string>, now: Time): Db
    requires refused <= broker.Keys
  {
    db.(events := map id | id in db.events ::
                    if id in refused then FailedRow(db.events[id], EnqueueError(broker[id]), now) else db.events[id],
        claims := db.claims - refused)
  }

  lemma ReleaseOneMore(db: Db, refused: set<EventId>, broker: map<EventId, string>, id: EventId, now: Time)
    requires refused <= broker.Keys && id in broker && id !in refused
    requires id in db.events && db.events[id].status.PROCESSING?
    ensures Released(ReleasedAll(db, refused, broker, now), id, EnqueueError(broker[id]), now)
            == ReleasedAll(db, refused + {id}, broker, now)
  {
    var one := Released(ReleasedAll(db, refused, broker, now), id, EnqueueError(broker[id]), now);
    var all := ReleasedAll(db, refused + {id}, broker, now);
    assert one.events == all.events;
    assert one.claims == all.claims;
  }

  lemma NothingReleased(db: Db, broker: map<EventId, string>, now: Time)
    ensures ReleasedAll(db, {}, broker, now) == db
  {}

  /** Until its turn comes, a claimed event stays as it was claimed. */
  lemma StillProcessing(db: Db, ids: set<EventId>, id: EventId, refused: set<EventId>, broker: map<EventId, string>,
                        claimedAt: Time, releasedAt: Time)
    requires refused <= broker.Keys && id in ids && id in db.events && id !in refused
    ensures var claimed := ClaimedAll(db, ids, claimedAt);
      && id in claimed.events && claimed.events[id].status.PROCESSING?
      && id in ReleasedAll(claimed, refused, broker, releasedAt).events
  {
    hide FailedRow, EnqueueError;
  }

  /** Claim a batch in one transaction, then hand the events over one by one. `broker` tells
      for each event why the broker refuses it, if it does. */
  method ClaimAndEnqueueDueEvents(session: Session, limit: nat, locked: set<EventId>,
                                  broker: map<EventId, string>, claimedAt: Time, releasedAt: Time)
    returns (ids: seq<EventId>, enqueued: seq<EventId>)
    modifies session`events, session`claims
    ensures IsPage(ids, DueIds(old(session.events), locked, claimedAt), limit)
    ensures session.State() == ReleasedAll(ClaimedAll(old(session.State()), Elements(ids), claimedAt),
                                           Elements(ids) * broker.Keys, broker, releasedAt)
    ensures Distinct(enqueued) && Elements(enqueued) == Elements(ids) - broker.Keys
  {
    hide ReleasedAll, ClaimedAll, FailedRow, EnqueueError;
    var repository := new OutboxEventRepository(session);
    ids := repository.ClaimDueEvents(limit, locked, claimedAt);
    ghost var claimed := session.State();
    assert Elements(ids[..0]) * broker.Keys == {};
    NothingReleased(claimed, broker, releasedAt);
    enqueued := [];
    for k := 0 to |ids|
      invariant session.State() == ReleasedAll(claimed, Elements(ids[..k]) * broker.Keys, broker, releasedAt)
      invariant Distinct(enqueued) && Elements(enqueued) == Elements(ids[..k]) - broker.Keys
    {
      ghost var done := Elements(ids[..k]) * broker.Keys;
      assert ids[k] in ids && ids[k] !in ids[..k];
      assert Elements(ids[..k + 1]) == Elements(ids[..k]) + {ids[k]};
      if ids[k] !in broker {
        assert ids[k] !in Elements(enqueued);
        assert Elements(enqueued + [ids[k]]) == Elements(enqueued) + {ids[k]};
        enqueued := enqueued + [ids[k]];
        assert Elements(ids[..k + 1]) * broker.Keys == done;
      } else if ids[k] in session.events {
        StillProcessing(old(session.State()), Elements(ids), ids[k], done, broker, claimedAt, releasedAt);
        ReleaseOneMore(claimed, done, broker, ids[k], releasedAt);
        repository.ReleaseProcessingEventForRetry(ids[k], EnqueueError(broker[ids[k]]), releasedAt);
        assert Elements(ids[..k + 1]) * broker.Keys == done + {ids[k]};
      } else {
        StillProcessing(old(session.State()), Elements(ids), ids[k], done, broker, claimedAt, releasedAt);
        assert false;
      }
    }
    assert ids[..|ids|] == ids;
  }

  /** Handing over keeps the batch apart: what the broker took is in flight and unowned, what
      it refused has lost one attempt, and nothing else moved. */
  lemma BatchAfterTick(db: Db, ids: set<EventId>, broker: map<EventId, string>, claimedAt: Time, releasedAt: Time)
    ensures var after := ReleasedAll(ClaimedAll(db, ids, claimedAt), ids * broker.Keys, broker, releasedAt);
      && after.events.Keys == db.events.Keys && after.claims == db.claims - ids && after.invites == db.invites
      && forall id :: id in db.events ==>
           after.events[id] == if id in ids
             then DispatchedRow(db.events[id], if id in broker then Some(broker[id]) else None, claimedAt, releasedAt)
             else db.events[id]
  {
    var after := ReleasedAll(ClaimedAll(db, ids, claimedAt), ids * broker.Keys, broker, releasedAt);
    assert after.claims == db.claims - ids;
  }
}
