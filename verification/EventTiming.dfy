/** When events are due and when they are stale, read off the steps of a run, and what a finished
    event still holds. */
module EventTiming {
  import opened Common
  import opened Records
  import opened OutboxRepository
  import opened Dispatcher
  import opened Worker
  import opened Scrubbing
  import opened InviteService
  import opened TextRules
  import opened DeliverySystem

  /* ---- Locks ---- */

  /** A claim of the dispatcher or of a worker locks an event. */
  ghost predicate Locks(s: System, step: Step, id: EventId) {
    || (step.ClaimDue? && id in step.ids)
    || (step.Grant? && step.event == id && id in s.db.events && s.db.events[id].status == PROCESSING && id !in s.db.claims)
  }

  /** The times at which a run locked an event. */
  ghost function {:induction false} LockTimes(s: System, run: seq<Step>, id: EventId): seq<Time>
    requires IsRun(s, run)
    decreases |run|
  {
    if run == [] then []
    else (if Locks(s, run[0], id) then [s.now] else []) + LockTimes(Apply(s, run[0]), run[1..], id)
  }

  lemma StepLocks(s: System, step: Step, id: EventId)
    requires Enabled(s, step) && id in Apply(s, step).db.events && Apply(s, step).db.events[id].status == PROCESSING
    ensures Locks(s, step, id) ==> Apply(s, step).db.events[id].lockedAt == Some(s.now)
    ensures !Locks(s, step, id) ==>
      && id in s.db.events && s.db.events[id].status == PROCESSING
      && Apply(s, step).db.events[id].lockedAt == s.db.events[id].lockedAt
  {
    StepMoves(s, step, id);
    MoveIsLock(s, step, id);
    hide Enabled, Apply, MoveOf, Locks;
  }

  lemma MoveIsLock(s: System, step: Step, id: EventId)
    requires Enabled(s, step)
    ensures Locks(s, step, id) <==> MoveOf(s, step, id).Picked? || MoveOf(s, step, id).Taken?
  {}

  /** The lock of an event in flight is the last one the run took on it. */
  lemma {:induction false} LockIsLast(s: System, run: seq<Step>, id: EventId)
    requires IsRun(s, run) && id in Final(s, run).db.events && Final(s, run).db.events[id].status == PROCESSING
    ensures var times := LockTimes(s, run, id);
      if times == [] then
        id in s.db.events && s.db.events[id].status == PROCESSING
        && Final(s, run).db.events[id].lockedAt == s.db.events[id].lockedAt
      else Final(s, run).db.events[id].lockedAt == Some(times[|times| - 1])
    decreases |run|
  {
    hide Enabled, Apply, Locks;
    if run != [] {
      var rest := LockTimes(Apply(s, run[0]), run[1..], id);
      LockIsLast(Apply(s, run[0]), run[1..], id);
      if rest == [] {
        StepLocks(s, run[0], id);
      } else {
        assert LockTimes(s, run, id)[|LockTimes(s, run, id)| - 1] == rest[|rest| - 1];
      }
    }
  }

  /** In every run, each event a recovery fails was in flight, and its last lock was taken more than
      the timeout before. */
  lemma RecoveredOnlyAfterTimeout(s: System, run: seq<Step>, ids: set<EventId>, timeout: Time, id: EventId)
    requires Initial(s) && IsRun(s, run) && Enabled(Final(s, run), RecoverStale(ids, timeout)) && id in ids
    ensures id in Final(s, run).db.events && Final(s, run).db.events[id].status == PROCESSING
    ensures var times := LockTimes(s, run, id);
      times != [] && times[|times| - 1] + timeout < Final(s, run).now
  {
    LockIsLast(s, run, id);
  }

  /** Conversely, an event in flight whose last lock is older than the timeout, and that no
      transaction holds, is failed by a recovery whose limit covers the table. */
  lemma AbandonedIsRecovered(
    s: System, run: seq<Step>, locked: set<EventId>, timeout: Time, limit: nat, page: seq<EventId>, id: EventId)
    requires Initial(s) && IsRun(s, run) && timeout >= 0
    requires var t := Final(s, run);
      && IsPage(page, StaleIds(t.db.events, locked, timeout, t.now), limit) && |t.db.events| <= limit
      && id in t.db.events && t.db.events[id].status == PROCESSING && id !in locked
    requires var times := LockTimes(s, run, id);
      times != [] ==> times[|times| - 1] + timeout < Final(s, run).now
    ensures id in page
    ensures var after := Recovered(Final(s, run).db, Elements(page), Final(s, run).now);
      && id !in after.claims && id in after.events && after.events[id].status != PROCESSING
      && after.events[id].attempts == Final(s, run).db.events[id].attempts + 1
  {
    LockIsLast(s, run, id);
    RecoveryTakes(Final(s, run).db.events, locked, timeout, Final(s, run).now, limit, page);
  }

  /** A worker owns an event under a lock taken at a time. */
  ghost predicate OwnsSince(s: System, id: EventId, w: ClaimToken, since: Time) {
    && id in s.db.events && s.db.events[id].status == PROCESSING && s.db.events[id].lockedAt == Some(since)
    && id in s.db.claims && s.db.claims[id].token == w
  }

  /** No step of a run reports for the worker or hands the event back to the dispatcher, and no
      recovery is more impatient than `timeout`. */
  ghost predicate LeftAlone(run: seq<Step>, id: EventId, w: ClaimToken, timeout: Time) {
    forall i :: 0 <= i < |run| ==>
      && (run[i].Report? ==> run[i].token != w) && (run[i].Release? ==> run[i].event != id)
      && (run[i].RecoverStale? ==> run[i].timeout >= timeout)
  }

  lemma StepKeepsOwner(s: System, step: Step, id: EventId, w: ClaimToken, since: Time, timeout: Time)
    requires Enabled(s, step) && OwnsSince(s, id, w, since) && s.now <= since + timeout
    requires LeftAlone([step], id, w, timeout)
    ensures OwnsSince(Apply(s, step), id, w, since)
  {
    assert [step][0] == step;
    StepMoves(s, step, id);
    OwnerStays(s, step, id, w, since, timeout);
    hide Enabled, Apply, MoveOf;
  }

  lemma OwnerStays(s: System, step: Step, id: EventId, w: ClaimToken, since: Time, timeout: Time)
    requires Enabled(s, step) && OwnsSince(s, id, w, since) && s.now <= since + timeout
    requires (step.Report? ==> step.token != w) && (step.Release? ==> step.event != id)
    requires step.RecoverStale? ==> step.timeout >= timeout
    ensures MoveOf(s, step, id) == Stays
  {}

  lemma {:induction false} RunKeepsOwner(s: System, run: seq<Step>, id: EventId, w: ClaimToken, since: Time, timeout: Time)
    requires IsRun(s, run) && OwnsSince(s, id, w, since) && LeftAlone(run, id, w, timeout)
    requires Final(s, run).now <= since + timeout
    ensures OwnsSince(Final(s, run), id, w, since)
    decreases |run|
  {
    hide Enabled, Apply, OwnsSince;
    if run != [] {
      TimePasses(s, run);
      assert LeftAlone([run[0]], id, w, timeout);
      StepKeepsOwner(s, run[0], id, w, since, timeout);
      RunKeepsOwner(Apply(s, run[0]), run[1..], id, w, since, timeout);
    }
  }

  lemma {:induction false} TimePasses(s: System, run: seq<Step>)
    requires IsRun(s, run)
    ensures Final(s, run).now >= s.now
    decreases |run|
  {
    if run != [] {
      TimePasses(Apply(s, run[0]), run[1..]);
    }
  }

  /** A worker that reports within the timeout of its grant still owns its event, whatever the
      others do meanwhile, unless the dispatcher hands this very event back. */
  lemma PromptWorkerOwns(s: System, id: EventId, w: ClaimToken, enabled: bool, run: seq<Step>, timeout: Time)
    requires Enabled(s, Grant(id, w, enabled))
    requires id in s.db.events && s.db.events[id].status == PROCESSING && id !in s.db.claims
    requires var granted := Apply(s, Grant(id, w, enabled));
      IsRun(granted, run) && LeftAlone(run, id, w, timeout) && Final(granted, run).now <= s.now + timeout
    ensures var t := Final(Apply(s, Grant(id, w, enabled)), run);
      id in t.db.events && t.db.events[id].status == PROCESSING && id in t.db.claims && t.db.claims[id].token == w
  {
    StepLocks(s, Grant(id, w, enabled), id) by { GrantTakes(s, id, w, enabled); }
    GrantTakes(s, id, w, enabled);
    RunKeepsOwner(Apply(s, Grant(id, w, enabled)), run, id, w, s.now, timeout);
  }

  lemma GrantTakes(s: System, id: EventId, w: ClaimToken, enabled: bool)
    requires Enabled(s, Grant(id, w, enabled))
    requires id in s.db.events && s.db.events[id].status == PROCESSING && id !in s.db.claims
    ensures OwnsSince(Apply(s, Grant(id, w, enabled)), id, w, s.now)
  {
    hide Decide, ExpiredByDecision;
    StepMoves(s, Grant(id, w, enabled), id);
  }

  /* ---- Waiting and failing ---- */

  /** A freshly published event is taken by the next claim whose limit covers the table. */
  lemma FreshEventIsClaimed(
    s: System, publish: Step, locked: set<EventId>, now: Time, limit: nat, page: seq<EventId>, id: EventId)
    requires Enabled(s, publish)
    requires (publish.CreateInvite? || publish.ResendInvite? || publish.PublishOther?) && publish.event == id
    requires var events := Apply(s, publish).db.events;
      IsPage(page, DueIds(events, locked, now), limit) && |events| <= limit && id !in locked
    ensures id in page
  {
    StepMoves(s, publish, id);
    AppearsPending(s, publish, id);
    ClaimTakes(Apply(s, publish).db.events, locked, now, limit, page);
  }

  lemma AppearsPending(s: System, publish: Step, id: EventId)
    requires Enabled(s, publish)
    requires (publish.CreateInvite? || publish.ResendInvite? || publish.PublishOther?) && publish.event == id
    ensures id in Apply(s, publish).db.events
    ensures var e := Apply(s, publish).db.events[id];
      e.status == PENDING && e.nextAttemptAt == None && e.attempts == 0 && e.maxAttempts == 10 && e.lockedAt == None
  {
    hide InvitePayload, Normalised;
  }

  /** What a failed attempt leaves: one more attempt counted, no lock, and either the end, or a wait
      of 2^attempts seconds with everything else kept. */
  lemma FailureLeaves(e: Event, error: string, now: Time)
    ensures var after := FailedRow(e, error, now);
      && after.attempts == e.attempts + 1 && after.lockedAt == None
      && after.lastError.Some? && after.lastError.value <= error && |after.lastError.value| <= 500
      && (|error| <= 500 ==> after.lastError.value == error)
      && (e.attempts + 1 >= e.maxAttempts ==> after.status == FAILED && after.nextAttemptAt == None)
      && (e.attempts + 1 < e.maxAttempts ==>
            && after.status == PENDING && after.nextAttemptAt == Some(now + Power(2, e.attempts + 1) * 1_000_000)
            && after.payload == e.payload)
      && after.eventType == e.eventType && after.aggregateId == e.aggregateId && after.maxAttempts == e.maxAttempts
      && after.createdAt == e.createdAt && after.processedAt == e.processedAt
  {
    PowersAgree(e.attempts + 1);
    hide ScrubbedDelivery;
  }

  /** What a settled event is left with: its type, attempts and wait, no lock and no error. */
  lemma SettlementLeaves(e: Event, now: Time)
    ensures var after := ProcessedRow(e, now);
      && after.status == PROCESSED && after.processedAt == Some(now) && after.lockedAt == None && after.lastError == None
      && after.updatedAt == now && after.attempts == e.attempts && after.maxAttempts == e.maxAttempts
      && after.nextAttemptAt == e.nextAttemptAt && after.eventType == e.eventType && after.aggregateId == e.aggregateId
      && after.createdAt == e.createdAt
      && (after.payload == e.payload || ((e.eventType == INVITE_CREATED || e.eventType == INVITE_RESEND) && e.payload.Object?))
  {}

  /** The errors recovery and the dispatcher record. */
  lemma RecoveryIsNamed(db: Db, ids: set<EventId>, now: Time, id: EventId, e: Event, refusal: string, claimedAt: Time)
    requires id in ids && id in db.events && |refusal| <= 485
    ensures Recovered(db, ids, now).events[id].lastError == Some("stale_processing_recovered")
    ensures DispatchedRow(e, Some(refusal), claimedAt, now).lastError == Some("enqueue_failed:" + refusal)
  {
    hide ScrubbedDelivery;
  }

  function {:induction false} Power(base: nat, n: nat): nat { if n == 0 then 1 else base * Power(base, n - 1) }

  lemma {:induction false} PowersAgree(n: nat)
    ensures Pow2(n) == Power(2, n)
  {
    if n > 0 {
      PowersAgree(n - 1);
    }
  }

  /** A failed event is taken again as soon as its wait is over, and not before. */
  lemma FailedEventIsRetried(
    e: Event, error: string, failedAt: Time, events: map<EventId, Event>, locked: set<EventId>, now: Time, limit: nat,
    page: seq<EventId>, id: EventId)
    requires e.attempts + 1 < e.maxAttempts
    requires id in events && events[id] == FailedRow(e, error, failedAt) && id !in locked && |events| <= limit
    requires IsPage(page, DueIds(events, locked, now), limit)
    ensures id in page <==> now >= failedAt + Power(2, e.attempts + 1) * 1_000_000
  {
    FailureLeaves(e, error, failedAt);
    ClaimTakes(events, locked, now, limit, page);
    hide FailedRow;
  }

  /* ---- What a finished event holds ---- */

  /** An invite event that is over holds neither the address nor the token. */
  ghost predicate Emptied(e: Event) {
    (&& (e.status == PROCESSED || e.status == FAILED) && (e.eventType == INVITE_CREATED || e.eventType == INVITE_RESEND)
     && e.payload.Object?) ==> EMAIL !in e.payload.fields && ENCRYPTED_RAW_TOKEN !in e.payload.fields
  }

  lemma MoveEmpties(move: Move, before: Db, after: Db, id: EventId, now: Time)
    requires Moved(move, before, after, id, now) && id in after.events
    requires id in before.events ==> Emptied(before.events[id])
    ensures Emptied(after.events[id])
  {
    assert EMAIL !in SAFE_KEYS && ENCRYPTED_RAW_TOKEN !in SAFE_KEYS;
  }

  /** In every reachable state, every finished invite event has lost both. */
  lemma {:induction false} FinishedEventsAreEmptied(s: System, run: seq<Step>, id: EventId)
    requires IsRun(s, run) && (id in s.db.events ==> Emptied(s.db.events[id]))
    ensures id in Final(s, run).db.events ==> Emptied(Final(s, run).db.events[id])
    decreases |run|
  {
    hide Enabled, Apply, MoveOf, Moved, Emptied;
    if run != [] {
      StepMoves(s, run[0], id);
      if id in Apply(s, run[0]).db.events {
        MoveEmpties(MoveOf(s, run[0], id), s.db, Apply(s, run[0]).db, id, s.now);
      }
      FinishedEventsAreEmptied(Apply(s, run[0]), run[1..], id);
    }
  }

  /** Nothing but these two members is lost when an event is settled or fails for good. */
  lemma ScrubLosesOnlySecrets(e: Event, k: PayloadKey)
    requires (e.eventType == INVITE_CREATED || e.eventType == INVITE_RESEND) && e.payload.Object?
    requires k != EMAIL && k != ENCRYPTED_RAW_TOKEN && k != SENSITIVE_PAYLOAD_SCRUBBED
    ensures var p := ScrubbedDelivery(e);
      && p.Object? && (k in p.fields <==> k in e.payload.fields) && (k in p.fields ==> p.fields[k] == e.payload.fields[k])
      && SENSITIVE_PAYLOAD_SCRUBBED in p.fields && p.fields[SENSITIVE_PAYLOAD_SCRUBBED] == Flag(true)
      && EMAIL !in p.fields && ENCRYPTED_RAW_TOKEN !in p.fields
  {}
}
