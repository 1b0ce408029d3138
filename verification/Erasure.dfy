/** The erasure of a subject: ten providers run one after the other inside a savepoint, and the
    execution state of the request that asked for it. */
module Erasure {
  import opened Common
  import opened Records
  import opened ErasureTables
  import opened ErasureLaws

  datatype Provider =
    | AUDIT | OUTBOX | INVITES | MEMBERSHIPS | ORGANISATIONS | STAFF | EXPORTS | GOVERNANCE | USERS | REQUESTS

  /** The order in which the orchestrator runs the providers. */
  const ORDER: seq<Provider> :=
    [AUDIT, OUTBOX, INVITES, MEMBERSHIPS, ORGANISATIONS, STAFF, EXPORTS, GOVERNANCE, USERS, REQUESTS]

  datatype ResultKey =
    | USERS_KEY | INVITES_KEY | OUTBOX_KEY | AUDIT_KEY | MEMBERSHIPS_KEY | ORGANISATIONS_KEY | STAFF_KEY
    | REQUESTS_KEY | EXPORTS_KEY | AUTHORIZATIONS_KEY | CONSENTS_KEY | NOTICES_KEY

  datatype Decision = MINIMISED | ALREADY_MINIMISED | RETAINED_BY_POLICY | MANUAL_REVIEW_POLICY

  datatype ProviderResult = ProviderResult(key: ResultKey, decision: Decision, affectedRows: nat)

  /** What the orchestrator hands to every provider. The address and the invite ids are read
      before any provider runs. */
  datatype Context = Context(
    request: RowId, subject: UserId, email: Option<string>, inviteIds: set<InviteId>, now: Time)

  /* ---- One provider ---- */

  function RowOf(t: Table, id: RowId): Row { if id in t then t[id] else map[] }

  /** The providers that look the subject up through the request. */
  predicate ReadsSubject(p: Provider) { p.AUDIT? || p.OUTBOX? || p.INVITES? || p.USERS? }

  function RequestSubject(db: Tables, c: Context): Val { Get(RowOf(db.requests, c.request), SUBJECT_USER_ID) }

  function SubjectOf(db: Tables, c: Context): UserId {
    if RequestSubject(db, c).Ref? then RequestSubject(db, c).ref else c.subject
  }

  /** The address the invite and outbox providers search for. */
  function EffectiveEmail(db: Tables, c: Context): Option<string> {
    var given := NormalisedEmail(c.email);
    if given.Some? then given else SubjectEmail(db, SubjectOf(db, c))
  }

  predicate HoldActive(db: Tables, subject: UserId, now: Time) {
    exists k :: k in db.audit && Selects(AuditJob(Snapshot(db, subject)), k, db.audit[k]) && HeldAt(db.audit[k], now)
  }

  predicate InFlight(events: map<EventId, Event>, email: Option<string>, ids: set<InviteId>) {
    exists k :: k in events && EventSelected(events[k], email, ids) && events[k].status.PROCESSING?
  }

  predicate ExportInProgress(t: Table, subject: UserId) {
    exists k :: k in t && Selects(ExportJob(subject), k, t[k]) && Get(t[k], STATUS) == Tagged(IN_PROGRESS)
  }

  /** A stored object was made for the subject, so it has to be deleted. */
  predicate HasObject(r: Row, subject: UserId) {
    Linked(r, EXPORT_LINKS, subject) && Owned(r, subject) && Get(r, STORAGE_KEY) != Nil
  }

  predicate UnknownBackend(t: Table, subject: UserId) {
    exists k :: k in t && HasObject(t[k], subject) && !KnownBackend(t[k])
  }

  /** The error a provider raises before it changes anything. */
  function Rejection(p: Provider, db: Tables, c: Context): Option<Reason> {
    var row := RowOf(db.requests, c.request);
    if Get(row, REQUEST_TYPE) != Tagged(ERASE) then Some(REQUIRES_ERASE_REQUEST)
    else if Get(row, STATUS) != Tagged(APPROVED) then Some(REQUIRES_APPROVED_REQUEST)
    else if ReadsSubject(p) && !RequestSubject(db, c).Ref? then Some(REQUIRES_SUBJECT_USER)
    else if ReadsSubject(p) && SubjectOf(db, c) !in db.users then Some(SUBJECT_NOT_FOUND)
    else if p.AUDIT? && HoldActive(db, SubjectOf(db, c), c.now) then Some(LEGAL_HOLD_ACTIVE)
    else if p.OUTBOX? && InFlight(db.events, EffectiveEmail(db, c), c.inviteIds) then Some(PROCESSING_ROWS_IN_FLIGHT)
    else if p.EXPORTS? && ExportInProgress(db.exports, c.subject) then Some(EXPORT_PROCESSING_ACTIVE)
    else if p.EXPORTS? && UnknownBackend(db.exports, c.subject) then Some(EXPORT_UNKNOWN_STORAGE_BACKEND)
    else None
  }

  function Rewritten(p: Provider, db: Tables, c: Context): Tables {
    match p
    case AUDIT => db.(audit := After(AuditJob(Snapshot(db, SubjectOf(db, c))), db.audit))
    case OUTBOX => db.(events := ErasedEvents(db.events, EffectiveEmail(db, c), c.inviteIds))
    case INVITES => db.(invites := ErasedInvites(db.invites, SubjectOf(db, c), EffectiveEmail(db, c), c.now))
    case MEMBERSHIPS => db
    case ORGANISATIONS => db
    case STAFF => db.(staff := After(StaffJob(c.subject), db.staff))
    case EXPORTS => db.(exports := After(ExportJob(c.subject), db.exports))
    case GOVERNANCE => db.(authorizations := After(SourceJob(c.subject), db.authorizations),
                           notices := After(SourceJob(c.subject), db.notices))
    case USERS => db.(users := After(UserJob(SubjectOf(db, c)), db.users))
    case REQUESTS => db.(requests := After(RequestJob(c.subject), db.requests))
  }

  function Mutated(key: ResultKey, affected: nat): ProviderResult {
    ProviderResult(key, if affected > 0 then MINIMISED else ALREADY_MINIMISED, affected)
  }

  /** What a provider reports, from the tables before and after it. */
  function Reports(p: Provider, db: Tables, after: Tables): seq<ProviderResult> {
    match p
    case AUDIT => [Mutated(AUDIT_KEY, |Changed(db.audit, after.audit)|)]
    case OUTBOX => [Mutated(OUTBOX_KEY, |Changed(db.events, after.events)|)]
    case INVITES => [Mutated(INVITES_KEY, |Changed(db.invites, after.invites)|)]
    case MEMBERSHIPS => [ProviderResult(MEMBERSHIPS_KEY, RETAINED_BY_POLICY, 0)]
    case ORGANISATIONS => [ProviderResult(ORGANISATIONS_KEY, MANUAL_REVIEW_POLICY, 0)]
    case STAFF => [Mutated(STAFF_KEY, |Changed(db.staff, after.staff)|)]
    case EXPORTS => [Mutated(EXPORTS_KEY, |Changed(db.exports, after.exports)|)]
    case GOVERNANCE =>
      [Mutated(AUTHORIZATIONS_KEY, |Changed(db.authorizations, after.authorizations)|),
       ProviderResult(CONSENTS_KEY, RETAINED_BY_POLICY, 0),
       Mutated(NOTICES_KEY, |Changed(db.notices, after.notices)|)]
    case USERS => [Mutated(USERS_KEY, |Changed(db.users, after.users)|)]
    case REQUESTS => [Mutated(REQUESTS_KEY, |Changed(db.requests, after.requests)|)]
  }

  function Ran(p: Provider, db: Tables, c: Context): (Tables, Result<seq<ProviderResult>, Reason>) {
    match Rejection(p, db, c)
    case Some(reason) => (db, Failure(reason))
    case None =>
      var after := Rewritten(p, db, c);
      (after, Success(Reports(p, db, after)))
  }

  /* ---- The sequence and the orchestrator ---- */

  /** The providers in the given order. `broken` names one whose flush fails unexpectedly, after
      its rows have been rewritten. */
  function {:induction false} RunAll(db: Tables, c: Context, ps: seq<Provider>, broken: Option<Provider>)
    : (Tables, Result<seq<ProviderResult>, Reason>)
    decreases |ps|
  {
    if ps == [] then (db, Success([]))
    else
      var (after, r) := Ran(ps[0], db, c);
      if r.Failure? then (after, r)
      else if broken == Some(ps[0]) then (after, Failure(ORCHESTRATION_FAILED))
      else Prefixed(r.value, RunAll(after, c, ps[1..], broken))
  }

  function Prefixed(first: seq<ProviderResult>, rest: (Tables, Result<seq<ProviderResult>, Reason>))
    : (Tables, Result<seq<ProviderResult>, Reason>)
  {
    if rest.1.Success? then (rest.0, Success(first + rest.1.value)) else rest
  }

  datatype Outcome =
    | Rejected(reason: Reason)
    | AlreadyCompleted
    | FailedRun(reason: Reason)
    | Completed(results: seq<ProviderResult>)

  const EXECUTION_FIELDS: set<Field> :=
    {EXECUTION_STATUS, EXECUTION_STARTED_AT, EXECUTION_COMPLETED_AT, EXECUTION_FAILED_AT,
     EXECUTION_FAILURE_REASON_CODE, EXECUTION_FAILURE_DETAIL}

  function MarkedProcessing(r: Row, now: Time): Row {
    r[EXECUTION_STATUS := Tagged(IN_PROGRESS)][EXECUTION_STARTED_AT := At(now)][EXECUTION_COMPLETED_AT := Nil]
     [EXECUTION_FAILED_AT := Nil][EXECUTION_FAILURE_REASON_CODE := Nil][EXECUTION_FAILURE_DETAIL := Nil]
  }

  function MarkedReady(r: Row, now: Time): Row {
    r[EXECUTION_STATUS := Tagged(READY)][EXECUTION_COMPLETED_AT := At(now)][EXECUTION_FAILED_AT := Nil]
     [EXECUTION_FAILURE_REASON_CODE := Nil][EXECUTION_FAILURE_DETAIL := Nil]
  }

  function MarkedFailed(r: Row, reason: Reason, now: Time): Row {
    r[EXECUTION_STATUS := Tagged(FAILED_RUN)][EXECUTION_FAILED_AT := At(now)]
     [EXECUTION_FAILURE_REASON_CODE := Because(reason)][EXECUTION_FAILURE_DETAIL := Nil]
  }

  function WithRequest(db: Tables, id: RowId, r: Row): Tables { db.(requests := db.requests[id := r]) }

  /** Whether a run may start, and if not, how it ends at once. */
  function Refused(db: Tables, request: RowId): Option<Outcome> {
    if request !in db.requests then Some(Rejected(REQUEST_NOT_FOUND))
    else
      var row := db.requests[request];
      if Get(row, REQUEST_TYPE) != Tagged(ERASE) then Some(Rejected(REQUIRES_ERASE_REQUEST))
      else if Get(row, EXECUTION_STATUS) == Tagged(READY) then Some(AlreadyCompleted)
      else if Get(row, STATUS) != Tagged(APPROVED) then Some(Rejected(REQUIRES_APPROVED_REQUEST))
      else if Get(row, EXECUTION_STATUS) == Tagged(IN_PROGRESS) then Some(Rejected(ALREADY_PROCESSING))
      else if !Get(row, SUBJECT_USER_ID).Ref? then Some(Rejected(REQUIRES_SUBJECT_USER))
      else None
  }

  function ContextOf(db: Tables, request: RowId, subject: UserId, now: Time): Context {
    var email := SubjectEmail(db, subject);
    Context(request, subject, email, InviteIds(db.invites, subject, email), now)
  }

  function RunProviders(
    db: Tables, request: RowId, subject: UserId, now: Time, order: seq<Provider>, broken: Option<Provider>)
    : (Tables, Result<seq<ProviderResult>, Reason>)
  {
    if subject !in db.users then (db, Failure(SUBJECT_NOT_FOUND))
    else RunAll(db, ContextOf(db, request, subject, now), order, broken)
  }

  /** The end of a run: back to the savepoint and failed, or ready. */
  function Concluded(savepoint: Tables, request: RowId, run: (Tables, Result<seq<ProviderResult>, Reason>), now: Time)
    : (Tables, Outcome)
  {
    match run.1
    case Failure(reason) =>
      (WithRequest(savepoint, request, MarkedFailed(RowOf(savepoint.requests, request), reason, now)), FailedRun(reason))
    case Success(results) =>
      (WithRequest(run.0, request, MarkedReady(RowOf(run.0.requests, request), now)), Completed(results))
  }

  /** A whole run with the providers in the given order. */
  function Executed(db: Tables, request: RowId, now: Time, order: seq<Provider>, broken: Option<Provider>)
    : (Tables, Outcome)
  {
    if Refused(db, request).Some? then (db, Refused(db, request).value)
    else
      var row := db.requests[request];
      var start := WithRequest(db, request, MarkedProcessing(row, now));
      Concluded(start, request, RunProviders(start, request, Get(row, SUBJECT_USER_ID).ref, now, order, broken), now)
  }

  /* ---- The methods ---- */

  /** The loop of every provider over its table: each row is replaced by what the provider makes
      of it, and the rows that really changed are counted. */
  method RewriteRows<R(==)>(t: map<nat, R>, treated: (nat, R) -> R) returns (after: map<nat, R>, affected: nat)
    ensures after == map k | k in t :: treated(k, t[k])
    ensures affected == |Changed(t, after)|
  {
    after, affected := t, 0;
    var rest := t.Keys;
    while rest != {}
      invariant rest <= t.Keys && after.Keys == t.Keys
      invariant forall k :: k in rest ==> after[k] == t[k]
      invariant forall k :: k in t && k !in rest ==> after[k] == treated(k, t[k])
      invariant affected == |Changed(t, after)|
    {
      var id :| id in rest;
      rest := rest - {id};
      if treated(id, t[id]) != t[id] {
        ghost var before := Changed(t, after);
        after := after[id := treated(id, t[id])];
        assert Changed(t, after) == before + {id};
        affected := affected + 1;
      }
    }
  }

  method RewriteTable(job: Job, t: Table) returns (after: Table, affected: nat)
    ensures after == After(job, t)
    ensures affected == |Changed(t, after)|
  {
    after, affected := RewriteRows(t, (k, r) => Treated(job, k, r));
  }

  method RewriteInvites(t: map<InviteId, Invite>, subject: UserId, email: Option<string>, now: Time)
    returns (after: map<InviteId, Invite>, affected: nat)
    ensures after == ErasedInvites(t, subject, email, now)
    ensures affected == |Changed(t, after)|
  {
    after, affected := RewriteRows(t, (k, i) => TreatedInvite(k, i, subject, email, now));
  }

  method RewriteEvents(t: map<EventId, Event>, email: Option<string>, ids: set<InviteId>)
    returns (after: map<EventId, Event>, affected: nat)
    ensures after == ErasedEvents(t, email, ids)
    ensures affected == |Changed(t, after)|
  {
    after, affected := RewriteRows(t, (k, e) => TreatedEvent(e, email, ids));
  }

  /** The database session an erasure runs in. */
  class ErasureSession {
    const order: seq<Provider>
    var users: Table
    var audit: Table
    var events: map<EventId, Event>
    var invites: map<InviteId, Invite>
    var memberships: Table
    var staff: Table
    var exports: Table
    var authorizations: Table
    var consents: Table
    var notices: Table
    var requests: Table

    function State(): Tables
      reads this
    {
      Tables(users, audit, events, invites, memberships, staff, exports, authorizations, consents, notices, requests)
    }

    constructor (db: Tables)
      ensures State() == db && order == ORDER
    {
      order := ORDER;
      users, audit, events, invites := db.users, db.audit, db.events, db.invites;
      memberships, staff, exports := db.memberships, db.staff, db.exports;
      authorizations, consents, notices, requests := db.authorizations, db.consents, db.notices, db.requests;
    }

    /** Rolls back to a savepoint. */
    method Restore(saved: Tables)
      modifies this
      ensures State() == saved
    {
      users, audit, events, invites := saved.users, saved.audit, saved.events, saved.invites;
      memberships, staff, exports := saved.memberships, saved.staff, saved.exports;
      authorizations, consents, notices := saved.authorizations, saved.consents, saved.notices;
      requests := saved.requests;
    }

    method MinimiseAuditEvents(c: Context) returns (r: Result<seq<ProviderResult>, Reason>)
      modifies this`audit
      ensures (State(), r) == Ran(AUDIT, old(State()), c)
      ensures r.Success? ==>
        && audit.Keys == old(audit).Keys
        && forall k :: k in audit ==> AuditLeft(old(State()), SubjectOf(old(State()), c), old(audit)[k], audit[k])
    {
      hide AuditLeft, Treated, Snapshot, SubjectOf, Rejection, Changed;
      var problem := Rejection(AUDIT, State(), c);
      if problem.Some? { return Failure(problem.value); }
      var after, affected := RewriteTable(AuditJob(Snapshot(State(), SubjectOf(State(), c))), audit);
      forall k | k in audit { AuditRowExactly(State(), SubjectOf(State(), c), k, audit[k]); }
      audit := after;
      r := Success([Mutated(AUDIT_KEY, affected)]);
    }

    method ScrubOutbox(c: Context) returns (r: Result<seq<ProviderResult>, Reason>)
      modifies this`events
      ensures (State(), r) == Ran(OUTBOX, old(State()), c)
    {
      hide Rejection, After, ErasedEvents, ErasedInvites, Changed, SubjectOf, EffectiveEmail;
      var problem := Rejection(OUTBOX, State(), c);
      if problem.Some? { return Failure(problem.value); }
      var after, affected := RewriteEvents(events, EffectiveEmail(State(), c), c.inviteIds);
      events := after;
      r := Success([Mutated(OUTBOX_KEY, affected)]);
    }

    method AnonymiseInvites(c: Context) returns (r: Result<seq<ProviderResult>, Reason>)
      modifies this`invites
      ensures (State(), r) == Ran(INVITES, old(State()), c)
    {
      hide Rejection, After, ErasedEvents, ErasedInvites, Changed, SubjectOf, EffectiveEmail;
      var problem := Rejection(INVITES, State(), c);
      if problem.Some? { return Failure(problem.value); }
      var after, affected := RewriteInvites(invites, SubjectOf(State(), c), EffectiveEmail(State(), c), c.now);
      invites := after;
      r := Success([Mutated(INVITES_KEY, affected)]);
    }

    method ApplyMembershipPolicy(c: Context) returns (r: Result<seq<ProviderResult>, Reason>)
      ensures (State(), r) == Ran(MEMBERSHIPS, State(), c)
    {
      var problem := Rejection(MEMBERSHIPS, State(), c);
      if problem.Some? { return Failure(problem.value); }
      r := Success([ProviderResult(MEMBERSHIPS_KEY, RETAINED_BY_POLICY, 0)]);
    }

    method ApplyOrganisationPolicy(c: Context) returns (r: Result<seq<ProviderResult>, Reason>)
      ensures (State(), r) == Ran(ORGANISATIONS, State(), c)
    {
      var problem := Rejection(ORGANISATIONS, State(), c);
      if problem.Some? { return Failure(problem.value); }
      r := Success([ProviderResult(ORGANISATIONS_KEY, MANUAL_REVIEW_POLICY, 0)]);
    }

    method MinimisePlatformStaff(c: Context) returns (r: Result<seq<ProviderResult>, Reason>)
      modifies this`staff
      ensures (State(), r) == Ran(STAFF, old(State()), c)
    {
      hide Rejection, After, ErasedEvents, ErasedInvites, Changed, SubjectOf, EffectiveEmail;
      var problem := Rejection(STAFF, State(), c);
      if problem.Some? { return Failure(problem.value); }
      var after, affected := RewriteTable(StaffJob(c.subject), staff);
      staff := after;
      r := Success([Mutated(STAFF_KEY, affected)]);
    }

    method MinimiseExportArtifacts(c: Context) returns (r: Result<seq<ProviderResult>, Reason>)
      modifies this`exports
      ensures (State(), r) == Ran(EXPORTS, old(State()), c)
    {
      hide Rejection, After, ErasedEvents, ErasedInvites, Changed, SubjectOf, EffectiveEmail;
      var problem := Rejection(EXPORTS, State(), c);
      if problem.Some? { return Failure(problem.value); }
      var after, affected := RewriteTable(ExportJob(c.subject), exports);
      exports := after;
      r := Success([Mutated(EXPORTS_KEY, affected)]);
    }

    method MinimisePrivacyGovernance(c: Context) returns (r: Result<seq<ProviderResult>, Reason>)
      modifies this`authorizations, this`notices
      ensures (State(), r) == Ran(GOVERNANCE, old(State()), c)
    {
      hide Rejection, After, ErasedEvents, ErasedInvites, Changed, SubjectOf, EffectiveEmail;
      var problem := Rejection(GOVERNANCE, State(), c);
      if problem.Some? { return Failure(problem.value); }
      var sources, affectedSources := RewriteTable(SourceJob(c.subject), authorizations);
      var accepted, affectedNotices := RewriteTable(SourceJob(c.subject), notices);
      authorizations, notices := sources, accepted;
      r := Success([Mutated(AUTHORIZATIONS_KEY, affectedSources), ProviderResult(CONSENTS_KEY, RETAINED_BY_POLICY, 0),
                    Mutated(NOTICES_KEY, affectedNotices)]);
    }

    method AnonymiseUserProfile(c: Context) returns (r: Result<seq<ProviderResult>, Reason>)
      modifies this`users
      ensures (State(), r) == Ran(USERS, old(State()), c)
    {
      hide Rejection, After, ErasedEvents, ErasedInvites, Changed, SubjectOf, EffectiveEmail;
      var problem := Rejection(USERS, State(), c);
      if problem.Some? { return Failure(problem.value); }
      var after, affected := RewriteTable(UserJob(SubjectOf(State(), c)), users);
      users := after;
      r := Success([Mutated(USERS_KEY, affected)]);
    }

    method MinimiseRequests(c: Context) returns (r: Result<seq<ProviderResult>, Reason>)
      modifies this`requests
      ensures (State(), r) == Ran(REQUESTS, old(State()), c)
    {
      hide Rejection, After, ErasedEvents, ErasedInvites, Changed, SubjectOf, EffectiveEmail;
      var problem := Rejection(REQUESTS, State(), c);
      if problem.Some? { return Failure(problem.value); }
      var after, affected := RewriteTable(RequestJob(c.subject), requests);
      requests := after;
      r := Success([Mutated(REQUESTS_KEY, affected)]);
    }

    method RunProvider(p: Provider, c: Context, broken: Option<Provider>) returns (r: Result<seq<ProviderResult>, Reason>)
      modifies this
      ensures State() == Ran(p, old(State()), c).0
      ensures r == if Ran(p, old(State()), c).1.Success? && broken == Some(p) then Failure(ORCHESTRATION_FAILED)
                   else Ran(p, old(State()), c).1
    {
      match p {
        case AUDIT => r := MinimiseAuditEvents(c);
        case OUTBOX => r := ScrubOutbox(c);
        case INVITES => r := AnonymiseInvites(c);
        case MEMBERSHIPS => r := ApplyMembershipPolicy(c);
        case ORGANISATIONS => r := ApplyOrganisationPolicy(c);
        case STAFF => r := MinimisePlatformStaff(c);
        case EXPORTS => r := MinimiseExportArtifacts(c);
        case GOVERNANCE => r := MinimisePrivacyGovernance(c);
        case USERS => r := AnonymiseUserProfile(c);
        case REQUESTS => r := MinimiseRequests(c);
      }
      if r.Success? && broken == Some(p) { r := Failure(ORCHESTRATION_FAILED); }
    }

    /** The ten calls, written as a loop over their order. */
    method RunCoreProviders(c: Context, broken: Option<Provider>) returns (r: Result<seq<ProviderResult>, Reason>)
      modifies this
      ensures (State(), r) == RunAll(old(State()), c, order, broken)
    {
      hide Rejection, Rewritten, Reports;
      var results: seq<ProviderResult> := [];
      ghost var start := State();
      assert order[0..] == order;
      assert forall rest: seq<ProviderResult> :: results + rest == rest;
      for i := 0 to |order|
        invariant RunAll(start, c, order, broken) == Prefixed(results, RunAll(State(), c, order[i..], broken))
      {
        ghost var before, rest := State(), order[i..];
        assert rest[0] == order[i] && rest[1..] == order[i + 1..];
        r := RunProvider(order[i], c, broken);
        if r.Failure? { return; }
        ghost var next := RunAll(State(), c, order[i + 1..], broken);
        assert next.1.Success? ==> results + (r.value + next.1.value) == (results + r.value) + next.1.value;
        results := results + r.value;
      }
      assert order[|order|..] == [] && results + [] == results;
      r := Success(results);
    }

    /** The orchestrator: check the request, mark it, run the providers in a savepoint, and mark
        how that ended. */
    method ExecuteCoreErasure(request: RowId, now: Time, broken: Option<Provider>) returns (outcome: Outcome)
      modifies this
      ensures (State(), outcome) == Executed(old(State()), request, now, order, broken)
    {
      var refusal := Refused(State(), request);
      if refusal.Some? { return refusal.value; }
      var subject := Get(requests[request], SUBJECT_USER_ID).ref;
      requests := requests[request := MarkedProcessing(requests[request], now)];
      var savepoint := State();
      var r := RunInSavepoint(request, subject, now, broken);
      outcome := Conclude(savepoint, request, r, now);
    }

    method RunInSavepoint(request: RowId, subject: UserId, now: Time, broken: Option<Provider>)
      returns (r: Result<seq<ProviderResult>, Reason>)
      modifies this
      ensures (State(), r) == RunProviders(old(State()), request, subject, now, order, broken)
    {
      if subject !in users { return Failure(SUBJECT_NOT_FOUND); }
      r := RunCoreProviders(ContextOf(State(), request, subject, now), broken);
    }

    method Conclude(savepoint: Tables, request: RowId, r: Result<seq<ProviderResult>, Reason>, now: Time)
      returns (outcome: Outcome)
      modifies this
      ensures (State(), outcome) == Concluded(savepoint, request, (old(State()), r), now)
    {
      match r {
        case Failure(reason) =>
          Restore(savepoint);
          requests := requests[request := MarkedFailed(RowOf(requests, request), reason, now)];
          outcome := FailedRun(reason);
        case Success(results) =>
          requests := requests[request := MarkedReady(RowOf(requests, request), now)];
          outcome := Completed(results);
      }
    }
  }
}
