/** Everything that can happen to invites and outbox events, one transaction at a time:
    services, dispatcher, workers, crashes, lost and duplicated messages, stale recovery,
    erasure and retention, in any order. */
module DeliverySystem {
  import opened Common
  import opened Records
  import opened OutboxRepository
  import opened InviteTable
  import opened InviteService
  import opened Worker
  import opened Scrubbing
  import opened TextRules

  /** A worker that holds, or held, a claim: what it decided and whether the sink was asked. */
  datatype WorkerRun = WorkerRun(event: EventId, action: Action, sent: bool)

  /** `issued` are the invite tokens drawn so far. */
  datatype System = System(db: Db, now: Time, workers: map<ClaimToken, WorkerRun>, issued: set<RawToken>)

  datatype Step =
    | Tick(to: Time)
    | CreateInvite(invite: InviteId, row: Invite, token: RawToken, event: EventId)
    | ResendInvite(invite: InviteId, token: RawToken, event: EventId)
    | RevokeInvite(invite: InviteId, actor: UserId)
    | AcceptInvite(invite: InviteId)
    | PublishOther(event: EventId, name: string, invite: InviteId)
    | ClaimDue(ids: set<EventId>)
    | Grant(event: EventId, token: ClaimToken, deliveryEnabled: bool)
    | Send(token: ClaimToken)
    | Report(token: ClaimToken, success: bool, error: Option<string>)
    | Release(event: EventId, reason: string)
    | RecoverStale(ids: set<EventId>, timeout: Time)
    | Erase(subject: UserId, email: Option<string>, events: set<EventId>, invites: set<InviteId>)
    | RetainEvents(ids: set<EventId>)
    | RetainInvites(retained: set<InviteId>, anonymised: set<InviteId>)

  /** Clocks do not run backwards, identifiers and tokens are fresh, addresses are stored
      normalised, and a batch is what its query allows. A message is never needed to reach a worker: it may be lost or repeated. */
  predicate Enabled(s: System, step: Step) {
    match step
    case Tick(to) => s.now <= to
    case CreateInvite(i, row, token, event) =>
      && i !in s.db.invites && event !in s.db.events && token !in s.issued
      && row == NewInvite(Normalised(row.email), row.organisationId, row.role, token, s.now)
    case ResendInvite(i, token, event) =>
      && i in s.db.invites && Usable(s.db.invites[i], s.now) && event !in s.db.events && token !in s.issued
    case RevokeInvite(i, _) => i in s.db.invites && s.db.invites[i].status.InvitePending?
    case AcceptInvite(i) => i in s.db.invites && Usable(s.db.invites[i], s.now)
    case PublishOther(event, _, _) => event !in s.db.events
    case ClaimDue(ids) => ids <= DueIds(s.db.events, {}, s.now)
    case Grant(_, token, _) => token !in s.workers
    case Send(token) => token in s.workers && s.workers[token].action.Deliver? && !s.workers[token].sent
    case Report(token, _, _) => token in s.workers
    case Release(_, _) => true
    case RecoverStale(ids, timeout) => timeout >= 0 && ids <= StaleIds(s.db.events, {}, timeout, s.now)
    case Erase(_, _, events, invites) =>
      && events <= s.db.events.Keys && invites <= s.db.invites.Keys
      && forall id :: id in events ==> !s.db.events[id].status.PROCESSING?
    case RetainEvents(ids) => ids <= s.db.events.Keys && forall id :: id in ids ==> Terminal(s.db.events[id])
    case RetainInvites(retained, anonymised) =>
      && retained <= s.db.invites.Keys && anonymised <= s.db.invites.Keys
      && forall i :: i in retained + anonymised ==> !s.db.invites[i].status.InvitePending?
  }

  function Apply(s: System, step: Step): System
    requires Enabled(s, step)
  {
    match step
    case Tick(to) => s.(now := to)
    case CreateInvite(i, row, token, event) =>
      s.(db := InviteCreated(s.db, i, row, token, event, s.now), issued := s.issued + {token})
    case ResendInvite(i, token, event) =>
      s.(db := InviteResent(s.db, i, token, event, s.now), issued := s.issued + {token})
    case RevokeInvite(i, actor) => s.(db := Revoked(s.db, i, actor, s.now))
    case AcceptInvite(i) => s.(db := Accepted(s.db, i))
    case PublishOther(event, name, i) =>
      s.(db := Published(s.db, event, OTHER_TYPE(name), i, Object(map[]), s.now))
    case ClaimDue(ids) => s.(db := ClaimedAll(s.db, ids, s.now))
    case Grant(event, token, deliveryEnabled) =>
      var (action, db) := Granted(s.db, event, token, deliveryEnabled, s.now);
      s.(db := db, workers := if action.Skip? then s.workers
                              else s.workers[token := WorkerRun(event, action, false)])
    case Send(token) => s.(workers := s.workers[token := s.workers[token].(sent := true)])
    case Report(token, success, error) =>
      s.(db := Reported(s.db, s.workers[token].event, token, success, error, s.now))
    case Release(event, error) => s.(db := Released(s.db, event, error, s.now))
    case RecoverStale(ids, _) => s.(db := Recovered(s.db, ids, s.now))
    case Erase(subject, email, events, invites) =>
      s.(db := s.db.(
           events := map id | id in s.db.events :: if id in events then ErasedEvent(s.db.events[id]) else s.db.events[id],
           invites := map i | i in s.db.invites ::
             if i in invites then ErasedInvite(i, s.db.invites[i], subject, email, s.now) else s.db.invites[i]))
    case RetainEvents(ids) =>
      s.(db := s.db.(
           events := map id | id in s.db.events :: if id in ids then RetainedEvent(s.db.events[id]) else s.db.events[id]))
    case RetainInvites(retained, anonymised) =>
      s.(db := s.db.(
           invites := map i | i in s.db.invites ::
             if i in retained then RetainedInvite(i, s.db.invites[i])
             else if i in anonymised then AnonymisedInvite(i, s.db.invites[i])
             else s.db.invites[i]))
  }

  /* ---- Runs ---- */

  /** Whether the steps can be taken one after the other from `s`. */
  ghost predicate {:induction false} IsRun(s: System, run: seq<Step>)
    decreases |run|
  {
    run == [] || (Enabled(s, run[0]) && IsRun(Apply(s, run[0]), run[1..]))
  }

  ghost function {:induction false} Final(s: System, run: seq<Step>): System
    requires IsRun(s, run)
    decreases |run|
  {
    if run == [] then s else Final(Apply(s, run[0]), run[1..])
  }

  const EMPTY_DB := Db(map[], map[], map[])

  ghost predicate Initial(s: System) { s.db == EMPTY_DB && s.workers == map[] && s.issued == {} }

  /* ---- What one step does to one event ---- */

  datatype Move =
    | Stays
    | Appears
    | Picked
    | Taken(token: ClaimToken)
    | Done
    | Fails(error: string)
    | Erased
    | Retained

  function MoveOf(s: System, step: Step, id: EventId): Move
    requires Enabled(s, step)
  {
    match step
    case CreateInvite(_, _, _, event) => if id == event then Appears else Stays
    case ResendInvite(_, _, event) => if id == event then Appears else Stays
    case PublishOther(event, _, _) => if id == event then Appears else Stays
    case ClaimDue(ids) => if id in ids then Picked else Stays
    case Grant(event, token, _) => if id == event && Claimable(s.db, id) then Taken(token) else Stays
    case Report(token, success, error) =>
      if id != s.workers[token].event || !Owns(s.db, id, token) then Stays
      else if success then Done else if error.Some? then Fails(error.value) else Stays
    case Release(event, reason) =>
      if id == event && id in s.db.events && s.db.events[id].status.PROCESSING? then Fails(reason) else Stays
    case RecoverStale(ids, _) => if id in ids then Fails(STALE_ERROR) else Stays
    case Erase(_, _, events, _) => if id in events then Erased else Stays
    case RetainEvents(ids) => if id in ids then Retained else Stays
    case _ => Stays
  }

  /** The claim on an event, if there is one. */
  function ClaimOn(db: Db, id: EventId): Option<ClaimToken> {
    if id in db.claims then Some(db.claims[id].token) else None
  }

  function RowOf(db: Db, id: EventId): Option<Event> {
    if id in db.events then Some(db.events[id]) else None
  }

  /** How a move changes an event and its claim. */
  predicate Moved(move: Move, before: Db, after: Db, id: EventId, now: Time) {
    match move
    case Stays => RowOf(after, id) == RowOf(before, id) && ClaimOn(after, id) == ClaimOn(before, id)
    case Appears =>
      && id !in before.events && id in after.events && ClaimOn(after, id) == ClaimOn(before, id)
      && after.events[id].(eventType := INVITE_CREATED, aggregateId := None, payload := NotAnObject)
         == Event(INVITE_CREATED, None, NotAnObject, PENDING, 0, DEFAULT_MAX_ATTEMPTS, None, None, None, None, now, now)
    case _ =>
      && id in before.events
      && var e := before.events[id];
         && RowOf(after, id) == Some(match move
              case Picked => ClaimedRow(e, now)
              case Taken(_) => ReservedRow(e, now)
              case Done => ProcessedRow(e, now)
              case Fails(error) => FailedRow(e, error, now)
              case Erased => ErasedEvent(e)
              case _ => RetainedEvent(e))
         && ClaimOn(after, id) == (match move
              case Taken(token) => Some(token)
              case Erased => ClaimOn(before, id)
              case Retained => ClaimOn(before, id)
              case _ => None)
         && (match move
              case Picked => Due(e, now)
              case Taken(_) => e.status.PROCESSING? && ClaimOn(before, id).None?
              case Done => e.status.PROCESSING? && ClaimOn(before, id).Some?
              case Fails(_) => e.status.PROCESSING?
              case Erased => !e.status.PROCESSING?
              case _ => Terminal(e))
  }

  lemma InviteStepMoves(s: System, step: Step, id: EventId)
    requires Enabled(s, step) && (step.Tick? || step.CreateInvite? || step.ResendInvite? || step.RevokeInvite? || step.AcceptInvite?
                                  || step.PublishOther? || step.RetainInvites?)
    ensures Moved(MoveOf(s, step, id), s.db, Apply(s, step).db, id, s.now)
  {
    hide ClaimedRow, ReservedRow, ProcessedRow, FailedRow, ErasedEvent, RetainedEvent, ErasedInvite, RetainedInvite,
      AnonymisedInvite, Decide, InvitePayload, Due, Terminal, Normalised;
  }

  lemma BatchStepMoves(s: System, step: Step, id: EventId)
    requires Enabled(s, step) && (step.ClaimDue? || step.RecoverStale?)
    ensures Moved(MoveOf(s, step, id), s.db, Apply(s, step).db, id, s.now)
  {
    hide ClaimedRow, ReservedRow, ProcessedRow, FailedRow, ErasedEvent, RetainedEvent, ErasedInvite, RetainedInvite,
      AnonymisedInvite, Decide, InvitePayload, Due, Terminal, Normalised;
  }

  lemma WorkerStepMoves(s: System, step: Step, id: EventId)
    requires Enabled(s, step) && (step.Grant? || step.Send? || step.Report? || step.Release?)
    ensures Moved(MoveOf(s, step, id), s.db, Apply(s, step).db, id, s.now)
  {
    hide ClaimedRow, ReservedRow, ProcessedRow, FailedRow, ErasedEvent, RetainedEvent, ErasedInvite, RetainedInvite,
      AnonymisedInvite, Decide, InvitePayload, Due, Terminal, Normalised;
  }

  lemma ScrubStepMoves(s: System, step: Step, id: EventId)
    requires Enabled(s, step) && (step.Erase? || step.RetainEvents?)
    ensures Moved(MoveOf(s, step, id), s.db, Apply(s, step).db, id, s.now)
  {
    hide ClaimedRow, ReservedRow, ProcessedRow, FailedRow, ErasedEvent, RetainedEvent, ErasedInvite, RetainedInvite,
      AnonymisedInvite, Decide, InvitePayload, Due, Terminal, Normalised;
  }

  lemma StepMoves(s: System, step: Step, id: EventId)
    requires Enabled(s, step)
    ensures Moved(MoveOf(s, step, id), s.db, Apply(s, step).db, id, s.now)
  {
    hide Enabled, Apply, MoveOf, Moved;
    match step
    case ClaimDue(_) => BatchStepMoves(s, step, id);
    case RecoverStale(_, _) => BatchStepMoves(s, step, id);
    case Grant(_, _, _) => WorkerStepMoves(s, step, id);
    case Send(_) => WorkerStepMoves(s, step, id);
    case Report(_, _, _) => WorkerStepMoves(s, step, id);
    case Release(_, _) => WorkerStepMoves(s, step, id);
    case Erase(_, _, _, _) => ScrubStepMoves(s, step, id);
    case RetainEvents(_) => ScrubStepMoves(s, step, id);
    case _ => InviteStepMoves(s, step, id);
  }

  /* ---- The protocol invariant ---- */

  /** What always holds of one event, given who owns it. */
  predicate EventInv(e: Event, owned: bool, now: Time) {
    && (owned ==> e.status.PROCESSING?)
    && (e.lockedAt.Some? <==> e.status.PROCESSING?)
    && (if e.status.FAILED? then e.attempts <= e.maxAttempts else e.attempts < e.maxAttempts)
    && (e.status.PROCESSING? && e.nextAttemptAt.Some? ==> e.nextAttemptAt.value <= now)
  }

  ghost predicate InvAt(s: System, id: EventId) {
    && (id in s.db.claims ==> id in s.db.events)
    && (id in s.db.events ==> EventInv(s.db.events[id], id in s.db.claims, s.now))
    && (id in s.db.claims ==>
          s.db.claims[id].token in s.workers && s.workers[s.db.claims[id].token].event == id)
  }

  ghost predicate Inv(s: System) { forall id: EventId :: InvAt(s, id) }

  lemma MovePreserves(move: Move, before: Db, after: Db, id: EventId, now: Time)
    requires Moved(move, before, after, id, now)
    requires id in before.claims ==> id in before.events
    requires id in before.events ==> EventInv(before.events[id], id in before.claims, now)
    ensures id in after.claims ==> id in after.events
    ensures id in after.events ==> EventInv(after.events[id], id in after.claims, now)
  {}

  lemma StepInvAt(s: System, step: Step, id: EventId)
    requires InvAt(s, id) && Enabled(s, step)
    ensures InvAt(Apply(s, step), id)
  {
    StepMoves(s, step, id);
    MovePreserves(MoveOf(s, step, id), s.db, Apply(s, step).db, id, s.now);
  }

  lemma {:induction false} RunInv(s: System, run: seq<Step>)
    requires Inv(s) && IsRun(s, run)
    ensures Inv(Final(s, run))
    decreases |run|
  {
    if run != [] {
      forall id: EventId { StepInvAt(s, run[0], id); }
      RunInv(Apply(s, run[0]), run[1..]);
    }
  }

  /** Every state a run can reach from the empty tables satisfies the invariant. */
  lemma Reachable(s: System, run: seq<Step>)
    requires Initial(s) && IsRun(s, run)
    ensures Inv(Final(s, run))
  {
    RunInv(s, run);
  }
}
