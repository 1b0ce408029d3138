/** Whole erasures, told from the database before them: how a run ends, and what a completed one
    leaves of each row and reports. */
module ErasureOutcome {
  import opened Common
  import opened Records
  import opened TextRules
  import opened ErasureTables
  import opened Erasure
  import opened ErasureOrder
  import opened ErasureGuarantees
  import opened ErasureLaws

  /** The database after a completed run, as asked for by `request` for `subject`. */
  ghost predicate Completes(db: Tables, request: RowId, now: Time, subject: UserId) {
    && Executed(db, request, now, ORDER, None).1.Completed?
    && request in db.requests && Holds(db.requests[request], SUBJECT_USER_ID, subject)
  }

  ghost function AfterRun(db: Tables, request: RowId, now: Time): Tables { Executed(db, request, now, ORDER, None).0 }

  /* ---- What a completed run leaves ---- */

  lemma TablesOf(db: Tables, request: RowId, now: Time, subject: UserId)
    requires Completes(db, request, now, subject)
    ensures var after, email := AfterRun(db, request, now), SubjectEmail(db, subject);
      && after.audit == After(AuditJob(Snapshot(db, subject)), db.audit)
      && after.events == ErasedEvents(db.events, email, InviteIds(db.invites, subject, email))
      && after.invites == ErasedInvites(db.invites, subject, email, now)
      && after.staff == After(StaffJob(subject), db.staff)
      && after.exports == After(ExportJob(subject), db.exports)
      && after.users == After(UserJob(subject), db.users)
      && after.memberships == db.memberships && after.consents == db.consents
      && after.authorizations == After(SourceJob(subject), db.authorizations)
      && after.notices == After(SourceJob(subject), db.notices)
  {
    hide Executed, After, ErasedEvents, ErasedInvites, Snapshot, InviteIds, SubjectEmail, MarkedReady, MarkedProcessing;
    CompletedTables(db, request, now);
  }

  lemma SameRows(db: Tables, request: RowId, now: Time, subject: UserId)
    requires Completes(db, request, now, subject)
    ensures var after := AfterRun(db, request, now);
      && after.audit.Keys == db.audit.Keys && after.events.Keys == db.events.Keys && after.invites.Keys == db.invites.Keys
      && after.staff.Keys == db.staff.Keys && after.exports.Keys == db.exports.Keys && after.users.Keys == db.users.Keys
      && after.authorizations.Keys == db.authorizations.Keys && after.notices.Keys == db.notices.Keys
      && after.requests.Keys == db.requests.Keys && subject in db.users
  {
    hide Executed, Treated, TreatedInvite, TreatedEvent, Snapshot, SubjectEmail, InviteIds, MarkedReady, MarkedProcessing;
    CompletedTables(db, request, now);
  }

  /** No audit event names the subject any more, as actor or as target, directly or through a row
      of another table. Each one that did has lost its context; every other one is untouched. */
  lemma CompletedAudit(db: Tables, request: RowId, now: Time, subject: UserId, k: RowId, f: Field)
    requires Completes(db, request, now, subject) && k in db.audit
    ensures AfterRun(db, request, now).audit.Keys == db.audit.Keys
    ensures var r, a := db.audit[k], AfterRun(db, request, now).audit[k];
      && !Holds(a, ACTOR_USER_ID, subject) && !PointsAtSubject(db, subject, a)
      && if !Holds(r, ACTOR_USER_ID, subject) && !PointsAtSubject(db, subject, r) then a == r
         else Get(a, f) == if f == REASON || f == METADATA_JSON || f == IP_ADDRESS || f == USER_AGENT then Nil
                           else if f == ACTOR_USER_ID && Holds(r, ACTOR_USER_ID, subject) then Nil
                           else if f == TARGET_ID && PointsAtSubject(db, subject, r) then Nil
                           else Get(r, f)
  {
    hide Completes, AfterRun, Treated, Holds, PointsAtSubject, Snapshot, SubjectEmail, InviteIds, ErasedEvents, ErasedInvites;
    TablesOf(db, request, now, subject);
    AuditRowExactly(db, subject, k, db.audit[k]);
  }

  /** The profile keeps a tombstone for its login and nothing personal; other profiles stay. */
  lemma CompletedUser(db: Tables, request: RowId, now: Time, subject: UserId, k: UserId, f: Field)
    requires Completes(db, request, now, subject) && k in db.users
    ensures AfterRun(db, request, now).users.Keys == db.users.Keys
    ensures var r, a := db.users[k], AfterRun(db, request, now).users[k];
      if k != subject then a == r
      else Get(a, f) == if f == EXTERNAL_AUTH_ID then Str("erased-user:" + Decimal(subject))
                        else if f == EMAIL_VERIFIED || f == ONBOARDING_COMPLETED then Bool(false)
                        else if f == USER_EMAIL || f == FIRST_NAME || f == LAST_NAME || f == SUSPENDED_REASON then Nil
                        else Get(r, f)
  {
    hide Completes, AfterRun, Treated, Snapshot, SubjectEmail, InviteIds, ErasedEvents, ErasedInvites, Decimal;
    TablesOf(db, request, now, subject);
    UserRowExactly(k, db.users[k], subject, f);
  }

  /** Staff rows of or by the subject lose their reason and the subject as creator. */
  lemma CompletedStaff(db: Tables, request: RowId, now: Time, subject: UserId, k: RowId, f: Field)
    requires Completes(db, request, now, subject) && k in db.staff
    ensures AfterRun(db, request, now).staff.Keys == db.staff.Keys
    ensures var r, a := db.staff[k], AfterRun(db, request, now).staff[k];
      if !Holds(r, USER_ID, subject) && !Holds(r, CREATED_BY_USER_ID, subject) then a == r
      else Get(a, f) == if f == SUSPENDED_REASON then Nil
                        else if f == CREATED_BY_USER_ID && Holds(r, CREATED_BY_USER_ID, subject) then Nil
                        else Get(r, f)
  {
    hide Completes, AfterRun, Treated, Holds, Snapshot, SubjectEmail, InviteIds, ErasedEvents, ErasedInvites;
    TablesOf(db, request, now, subject);
    StaffRowExactly(k, db.staff[k], subject, f);
  }

  /** Exports: the links go; what was made for the subject loses its file data, keeps the key of
      its object, and is cancelled if there is or may come an object. */
  lemma CompletedExport(db: Tables, request: RowId, now: Time, subject: UserId, k: RowId, f: Field)
    requires Completes(db, request, now, subject) && k in db.exports
    ensures AfterRun(db, request, now).exports.Keys == db.exports.Keys
    ensures var r, a := db.exports[k], AfterRun(db, request, now).exports[k];
      var owned := Holds(r, SUBJECT_USER_ID, subject) || Holds(r, REQUESTER_USER_ID, subject);
      var open := owned && (Get(r, STORAGE_KEY) != Nil || Get(r, STATUS) == Tagged(QUEUED) || Get(r, STATUS) == Tagged(READY));
      if !owned && !Holds(r, REQUESTED_BY_USER_ID, subject) && !Holds(r, GENERATED_BY_USER_ID, subject) then a == r
      else
        Get(a, f) ==
          if f == SUBJECT_USER_ID || f == REQUESTER_USER_ID || f == REQUESTED_BY_USER_ID || f == GENERATED_BY_USER_ID
          then (if Holds(r, f, subject) then Nil else Get(r, f))
          else if f == STATUS && open then Tagged(CANCELLED)
          else if f == FAILURE_REASON_CODE && open then Because(SUBJECT_ERASURE_REQUESTED)
          else if owned && (f == FILENAME || f == CONTENT_TYPE || f == SIZE_BYTES || f == CHECKSUM_SHA256
                            || f == FAILURE_DETAIL || f == PROCESSING_TOKEN || f == PROCESSING_LEASE_EXPIRES_AT) then Nil
          else Get(r, f)
  {
    hide Completes, AfterRun, Treated, Holds, Snapshot, SubjectEmail, InviteIds, ErasedEvents, ErasedInvites;
    TablesOf(db, request, now, subject);
    ExportRowExactly(k, db.exports[k], subject, f);
  }

  /** The remaining tables: authorisations and notices of the subject lose their source,
      memberships and consents stay as they are. */
  lemma CompletedGovernance(db: Tables, request: RowId, now: Time, subject: UserId, k: RowId, f: Field)
    requires Completes(db, request, now, subject)
    ensures var after := AfterRun(db, request, now);
      && after.authorizations.Keys == db.authorizations.Keys && after.notices.Keys == db.notices.Keys
      && after.memberships == db.memberships && after.consents == db.consents
    ensures k in db.authorizations ==>
      var r, a := db.authorizations[k], AfterRun(db, request, now).authorizations[k];
      if !Holds(r, SUBJECT_USER_ID, subject) then a == r else Get(a, f) == if f == SOURCE then Nil else Get(r, f)
    ensures k in db.notices ==>
      var r, a := db.notices[k], AfterRun(db, request, now).notices[k];
      if !Holds(r, SUBJECT_USER_ID, subject) then a == r else Get(a, f) == if f == SOURCE then Nil else Get(r, f)
  {
    hide Completes, AfterRun, Treated, Holds, Snapshot, SubjectEmail, InviteIds, ErasedEvents, ErasedInvites;
    TablesOf(db, request, now, subject);
    if k in db.authorizations { SourceRowExactly(k, db.authorizations[k], subject, f); }
    if k in db.notices { SourceRowExactly(k, db.notices[k], subject, f); }
  }

  /** Requests: the links go, and those by or about the subject lose their details; the request
      that was carried out also says so. */
  lemma CompletedRequest(db: Tables, request: RowId, now: Time, subject: UserId, k: RowId, f: Field)
    requires Completes(db, request, now, subject) && k in db.requests
    ensures AfterRun(db, request, now).requests.Keys == db.requests.Keys
    ensures var r, a := db.requests[k], AfterRun(db, request, now).requests[k];
      var owned := Holds(r, SUBJECT_USER_ID, subject) || Holds(r, REQUESTER_USER_ID, subject);
      if k != request && !owned && !Holds(r, REVIEWER_USER_ID, subject) && !Holds(r, REPRESENTATIVE_VERIFIED_BY_USER_ID, subject)
      then a == r
      else
        Get(a, f) ==
          if k == request && f == EXECUTION_STATUS then Tagged(READY)
          else if k == request && (f == EXECUTION_STARTED_AT || f == EXECUTION_COMPLETED_AT) then At(now)
          else if k == request && (f == EXECUTION_FAILED_AT || f == EXECUTION_FAILURE_REASON_CODE || f == EXECUTION_FAILURE_DETAIL)
          then Nil
          else if f == SUBJECT_USER_ID || f == REQUESTER_USER_ID || f == REVIEWER_USER_ID || f == REPRESENTATIVE_VERIFIED_BY_USER_ID
          then (if Holds(r, f, subject) then Nil else Get(r, f))
          else if owned && (f == REQUESTER_NOTE || f == REPRESENTATIVE_RELATIONSHIP || f == REPRESENTATIVE_AUTHORITY_NOTE
                            || f == REPRESENTATIVE_REJECTION_REASON_CODE || f == INTERNAL_NOTE || f == EXECUTION_FAILURE_DETAIL
                            || f == IDEMPOTENCY_KEY_HASH || f == IDEMPOTENCY_FINGERPRINT || f == IDEMPOTENCY_KEY_EXPIRES_AT
                            || f == EXPORT_ARTIFACT_ID || f == ERASURE_JOB_ID) then Nil
          else Get(r, f)
  {
    hide Completes, AfterRun, Treated, MarkedReady, MarkedProcessing, Holds;
    RequestsOf(db, request, now, subject, k);
    if k == request {
      OwnRequestExactly(db.requests[k], subject, now, k, f);
    } else {
      RequestRowExactly(k, db.requests[k], subject, f);
    }
  }

  lemma RequestsOf(db: Tables, request: RowId, now: Time, subject: UserId, k: RowId)
    requires Completes(db, request, now, subject) && k in db.requests
    ensures AfterRun(db, request, now).requests.Keys == db.requests.Keys
    ensures AfterRun(db, request, now).requests[k] ==
      if k == request then MarkedReady(Treated(RequestJob(subject), k, MarkedProcessing(db.requests[k], now)), now)
      else Treated(RequestJob(subject), k, db.requests[k])
    ensures k == request ==> Holds(db.requests[k], SUBJECT_USER_ID, subject)
  {
    hide Executed, After, ErasedEvents, ErasedInvites, Snapshot, InviteIds, SubjectEmail, Treated, MarkedReady, MarkedProcessing;
    CompletedTables(db, request, now);
    AfterAt(RequestJob(subject), Started(db, request, now).requests, k);
    AfterKeepsRows(RequestJob(subject), Started(db, request, now).requests);
  }

  lemma OwnRequestExactly(r: Row, subject: UserId, now: Time, k: RowId, f: Field)
    requires Holds(r, SUBJECT_USER_ID, subject)
    ensures Get(MarkedReady(Treated(RequestJob(subject), k, MarkedProcessing(r, now)), now), f) ==
      if f == EXECUTION_STATUS then Tagged(READY)
      else if f == EXECUTION_STARTED_AT || f == EXECUTION_COMPLETED_AT then At(now)
      else if f == EXECUTION_FAILED_AT || f == EXECUTION_FAILURE_REASON_CODE || f == EXECUTION_FAILURE_DETAIL then Nil
      else if f == SUBJECT_USER_ID || f == REQUESTER_USER_ID || f == REVIEWER_USER_ID || f == REPRESENTATIVE_VERIFIED_BY_USER_ID
      then (if Holds(r, f, subject) then Nil else Get(r, f))
      else if f == REQUESTER_NOTE || f == REPRESENTATIVE_RELATIONSHIP || f == REPRESENTATIVE_AUTHORITY_NOTE
              || f == REPRESENTATIVE_REJECTION_REASON_CODE || f == INTERNAL_NOTE
              || f == IDEMPOTENCY_KEY_HASH || f == IDEMPOTENCY_FINGERPRINT || f == IDEMPOTENCY_KEY_EXPIRES_AT
              || f == EXPORT_ARTIFACT_ID || f == ERASURE_JOB_ID then Nil
      else Get(r, f)
  {
    hide Treated, MarkedReady, MarkedProcessing;
    var marked := MarkedProcessing(r, now);
    MarkedAt(r, now, f);
    MarkedAt(r, now, SUBJECT_USER_ID);
    RequestRowExactly(k, marked, subject, f);
    MarkedAt(Treated(RequestJob(subject), k, marked), now, f);
  }

  lemma AfterAt(job: Job, t: Table, k: RowId)
    requires k in t
    ensures k in After(job, t) && After(job, t)[k] == Treated(job, k, t[k])
  {
    hide Treated;
  }

  lemma MarkedAt(r: Row, now: Time, f: Field)
    ensures Get(MarkedProcessing(r, now), f) ==
      if f == EXECUTION_STATUS then Tagged(IN_PROGRESS)
      else if f == EXECUTION_STARTED_AT then At(now)
      else if f == EXECUTION_COMPLETED_AT || f == EXECUTION_FAILED_AT || f == EXECUTION_FAILURE_REASON_CODE
              || f == EXECUTION_FAILURE_DETAIL then Nil
      else Get(r, f)
    ensures Get(MarkedReady(r, now), f) ==
      if f == EXECUTION_STATUS then Tagged(READY)
      else if f == EXECUTION_COMPLETED_AT then At(now)
      else if f == EXECUTION_FAILED_AT || f == EXECUTION_FAILURE_REASON_CODE || f == EXECUTION_FAILURE_DETAIL then Nil
      else Get(r, f)
  {}

  /** Invites the subject has no part in stay; the others lose the subject as revoker, and those
      under the subject's address become tombstones. */
  lemma CompletedInvite(db: Tables, request: RowId, now: Time, subject: UserId, k: InviteId)
    requires Completes(db, request, now, subject) && k in db.invites
    ensures AfterRun(db, request, now).invites.Keys == db.invites.Keys
    ensures var i, a := db.invites[k], AfterRun(db, request, now).invites[k];
      var tombstone := EndsWith(i.email, "@anonymous.invalid") && i.tokenHash.ScrubbedHash?;
      var under := SubjectEmail(db, subject).Some? && Normalised(i.email) == SubjectEmail(db, subject).value;
      && a.revokedByUserId == (if i.revokedByUserId == Some(subject) then None else i.revokedByUserId)
      && if (i.revokedByUserId == Some(subject) || IsAddressOf(db, subject, i.email)) && under && !tombstone
         then && a.email == "deleted-invite-" + Decimal(k) + "@anonymous.invalid" && a.tokenHash == ScrubbedHash(k)
              && a.expiresAt == None
              && a.status == (if i.status == InvitePending then InviteRevoked else i.status)
              && a.revokedAt == (if i.status == InvitePending then Some(now) else i.revokedAt)
              && a.organisationId == i.organisationId && a.role == i.role
              && a.createdAt == i.createdAt && a.updatedAt == i.updatedAt
         else a == i.(revokedByUserId := a.revokedByUserId)
  {
    hide Completes, AfterRun, TreatedInvite, Snapshot, SubjectEmail, InviteIds, ErasedEvents, IsAddressOf, Decimal, EndsWith,
      Normalised, After;
    TablesOf(db, request, now, subject);
    InviteRowExactly(db, subject, k, now);
  }

  /** Events about the subject's invites or address keep four members and two marks, and the ones
      that waited are ended; every other event stays. */
  lemma CompletedEvent(db: Tables, request: RowId, now: Time, subject: UserId, k: EventId, key: PayloadKey)
    requires Completes(db, request, now, subject) && k in db.events
    ensures AfterRun(db, request, now).events.Keys == db.events.Keys
    ensures var e, a := db.events[k], AfterRun(db, request, now).events[k];
      if !EventConcerns(db, subject, e) then a == e
      else
        && a.payload.Object?
        && (key in a.payload.fields <==>
             || key == SENSITIVE_PAYLOAD_SCRUBBED || key == PRIVACY_ERASURE_SCRUBBED
             || (e.payload.Object? && key in e.payload.fields
                 && (key == INVITE_ID || key == ORGANISATION_ID || key == PURPOSE || key == ROLE)))
        && (key in a.payload.fields ==>
              a.payload.fields[key] ==
                if key == SENSITIVE_PAYLOAD_SCRUBBED || key == PRIVACY_ERASURE_SCRUBBED then Flag(true) else e.payload.fields[key])
        && (if e.status == PENDING
            then a == e.(payload := a.payload, status := FAILED, lockedAt := None, nextAttemptAt := None,
                         lastError := Some("privacy_erasure_scrubbed"))
            else a == e.(payload := a.payload,
                         lastError := if e.lastError == Some("privacy_erasure_scrubbed") then e.lastError else None))
  {
    hide Completes, AfterRun, TreatedEvent, Snapshot, SubjectEmail, InviteIds, ErasedInvites, EventConcerns, After;
    TablesOf(db, request, now, subject);
    EventRowExactly(db, subject, db.events[k], key);
  }

  lemma ExportRowUnlinked(id: RowId, r: Row, subject: UserId)
    ensures !ExportConcerns(Treated(ExportJob(subject), id, r), subject)
  {
    hide ExportConcerns, MinimisedExport, Linked;
    ExportsExactly(id, r, subject);
    ExportsExactly(id, MinimisedExport(r, subject), subject);
    ExportRowMeaning(r, subject, STATUS);
  }

  lemma RequestRowUnlinked(id: RowId, r: Row, subject: UserId)
    ensures !RequestConcerns(Treated(RequestJob(subject), id, r), subject)
  {
    hide RequestConcerns, MinimisedRequest, Linked;
    RequestsExactly(id, r, subject);
    RequestsExactly(id, MinimisedRequest(r, subject), subject);
    RequestRowMeaning(r, subject, STATUS);
  }

  lemma ReadyKeepsLinks(r: Row, now: Time, subject: UserId)
    ensures RequestConcerns(MarkedReady(r, now), subject) <==> RequestConcerns(r, subject)
  {}

  lemma NoExportLinks(a: Row, subject: UserId)
    requires !ExportConcerns(a, subject)
    ensures && !Holds(a, SUBJECT_USER_ID, subject) && !Holds(a, REQUESTER_USER_ID, subject)
            && !Holds(a, REQUESTED_BY_USER_ID, subject) && !Holds(a, GENERATED_BY_USER_ID, subject)
  {}

  lemma NoRequestLinks(a: Row, subject: UserId)
    requires !RequestConcerns(a, subject)
    ensures && !Holds(a, SUBJECT_USER_ID, subject) && !Holds(a, REQUESTER_USER_ID, subject)
            && !Holds(a, REVIEWER_USER_ID, subject) && !Holds(a, REPRESENTATIVE_VERIFIED_BY_USER_ID, subject)
  {}

  lemma ExportUnlinked(db: Tables, request: RowId, now: Time, subject: UserId, k: RowId)
    requires Completes(db, request, now, subject) && k in db.exports
    ensures k in AfterRun(db, request, now).exports
    ensures var a := AfterRun(db, request, now).exports[k];
      && !Holds(a, SUBJECT_USER_ID, subject) && !Holds(a, REQUESTER_USER_ID, subject)
      && !Holds(a, REQUESTED_BY_USER_ID, subject) && !Holds(a, GENERATED_BY_USER_ID, subject)
  {
    hide Completes, AfterRun, Treated, ExportConcerns;
    TablesOf(db, request, now, subject);
    ExportRowUnlinked(k, db.exports[k], subject);
    NoExportLinks(AfterRun(db, request, now).exports[k], subject);
  }

  lemma RequestUnlinked(db: Tables, request: RowId, now: Time, subject: UserId, k: RowId)
    requires Completes(db, request, now, subject) && k in db.requests
    ensures k in AfterRun(db, request, now).requests
    ensures var a := AfterRun(db, request, now).requests[k];
      && !Holds(a, SUBJECT_USER_ID, subject) && !Holds(a, REQUESTER_USER_ID, subject)
      && !Holds(a, REVIEWER_USER_ID, subject) && !Holds(a, REPRESENTATIVE_VERIFIED_BY_USER_ID, subject)
  {
    hide Completes, AfterRun, Treated, RequestConcerns, MarkedReady, MarkedProcessing;
    RequestsOf(db, request, now, subject, k);
    RequestRowUnlinked(k, db.requests[k], subject);
    RequestRowUnlinked(k, MarkedProcessing(db.requests[k], now), subject);
    ReadyKeepsLinks(Treated(RequestJob(subject), k, MarkedProcessing(db.requests[k], now)), now, subject);
    NoRequestLinks(AfterRun(db, request, now).requests[k], subject);
  }

  lemma StaffUnlinked(db: Tables, request: RowId, now: Time, subject: UserId, k: RowId)
    requires Completes(db, request, now, subject) && k in db.staff
    ensures k in AfterRun(db, request, now).staff && !Holds(AfterRun(db, request, now).staff[k], CREATED_BY_USER_ID, subject)
  {
    hide Completes, AfterRun;
    CompletedStaff(db, request, now, subject, k, CREATED_BY_USER_ID);
  }

  /** After a completed erasure no audit event, export, request, staff row or invite names the
      subject in a covered column, and the profile has no address. */
  lemma CompletedRunUnlinks(db: Tables, request: RowId, now: Time, subject: UserId, k: nat)
    requires Completes(db, request, now, subject)
    ensures var after := AfterRun(db, request, now);
      && (k in after.audit ==> !Holds(after.audit[k], ACTOR_USER_ID, subject) && !PointsAtSubject(db, subject, after.audit[k]))
      && (k in after.exports ==>
            && !Holds(after.exports[k], SUBJECT_USER_ID, subject) && !Holds(after.exports[k], REQUESTER_USER_ID, subject)
            && !Holds(after.exports[k], REQUESTED_BY_USER_ID, subject) && !Holds(after.exports[k], GENERATED_BY_USER_ID, subject))
      && (k in after.requests ==>
            && !Holds(after.requests[k], SUBJECT_USER_ID, subject) && !Holds(after.requests[k], REQUESTER_USER_ID, subject)
            && !Holds(after.requests[k], REVIEWER_USER_ID, subject)
            && !Holds(after.requests[k], REPRESENTATIVE_VERIFIED_BY_USER_ID, subject))
      && (k in after.staff ==> !Holds(after.staff[k], CREATED_BY_USER_ID, subject))
      && (k in after.invites ==> after.invites[k].revokedByUserId != Some(subject))
      && subject in after.users && Get(after.users[subject], USER_EMAIL) == Nil
  {
    hide Completes, AfterRun, IsAddressOf, PointsAtSubject, EndsWith, Normalised, SubjectEmail, Holds, Get;
    var after := AfterRun(db, request, now);
    SameRows(db, request, now, subject);
    if k in db.audit { CompletedAudit(db, request, now, subject, k, SOURCE); }
    if k in db.exports { ExportUnlinked(db, request, now, subject, k); }
    if k in db.requests { RequestUnlinked(db, request, now, subject, k); }
    if k in db.staff { StaffUnlinked(db, request, now, subject, k); }
    if k in db.invites { CompletedInvite(db, request, now, subject, k); }
    CompletedUser(db, request, now, subject, subject, USER_EMAIL);
  }

  /* ---- How a run ends ---- */

  ghost predicate OnHold(db: Tables, subject: UserId, now: Time) {
    exists k :: k in db.audit && AuditConcerns(db, subject, db.audit[k])
             && LEGAL_HOLD_UNTIL in db.audit[k] && db.audit[k][LEGAL_HOLD_UNTIL].At? && db.audit[k][LEGAL_HOLD_UNTIL].time > now
  }

  ghost predicate BeingDelivered(db: Tables, subject: UserId) {
    exists k :: k in db.events && EventConcerns(db, subject, db.events[k]) && db.events[k].status == PROCESSING
  }

  ghost predicate BeingExported(db: Tables, subject: UserId) {
    exists k :: k in db.exports && ExportConcerns(db.exports[k], subject) && Get(db.exports[k], STATUS) == Tagged(IN_PROGRESS)
  }

  /** An object of the subject that nobody knows how to delete. */
  ghost predicate Undeletable(db: Tables, subject: UserId) {
    exists k :: k in db.exports
      && (Holds(db.exports[k], SUBJECT_USER_ID, subject) || Holds(db.exports[k], REQUESTER_USER_ID, subject))
      && Get(db.exports[k], STORAGE_KEY) != Nil
      && Get(db.exports[k], STORAGE_BACKEND) != Tagged(LOCAL) && Get(db.exports[k], STORAGE_BACKEND) != Tagged(S3_COMPATIBLE)
  }

  lemma HoldExactly(db: Tables, subject: UserId, now: Time)
    ensures HoldActive(db, subject, now) <==> OnHold(db, subject, now)
  {
    hide Selects, AuditConcerns, Snapshot;
    forall k | k in db.audit
      ensures Selects(AuditJob(Snapshot(db, subject)), k, db.audit[k]) <==> AuditConcerns(db, subject, db.audit[k])
    {
      AuditExactly(db, subject, k, db.audit[k]);
    }
  }

  lemma InFlightExactly(db: Tables, subject: UserId)
    ensures var email := SubjectEmail(db, subject);
      InFlight(db.events, email, InviteIds(db.invites, subject, email)) <==> BeingDelivered(db, subject)
  {
    hide EventSelected, EventConcerns, SubjectEmail, InviteIds;
    var email := SubjectEmail(db, subject);
    forall k | k in db.events
      ensures EventSelected(db.events[k], email, InviteIds(db.invites, subject, email)) <==> EventConcerns(db, subject, db.events[k])
    {
      EventsExactly(db, subject, db.events[k]);
    }
  }

  lemma ExportChecksExactly(db: Tables, subject: UserId)
    ensures ExportInProgress(db.exports, subject) <==> BeingExported(db, subject)
    ensures UnknownBackend(db.exports, subject) <==> Undeletable(db, subject)
  {
    forall k | k in db.exports
      ensures Selects(ExportJob(subject), k, db.exports[k]) <==> ExportConcerns(db.exports[k], subject)
      ensures Linked(db.exports[k], EXPORT_LINKS, subject) <==> ExportConcerns(db.exports[k], subject)
    {
      ExportsExactly(k, db.exports[k], subject);
    }
    hide Selects, Linked;
  }

  /** The first complaint, provider by provider. */
  lemma {:induction false} FirstComplaint(db: Tables, c: Context, ps: seq<Provider>, i: nat)
    requires i <= |ps| && forall j :: 0 <= j < i ==> Rejection(ps[j], db, c).None?
    ensures FirstFailure(db, c, ps, None) == if i < |ps| && Rejection(ps[i], db, c).Some? then Rejection(ps[i], db, c)
                                             else FirstFailure(db, c, ps[i..], None)
    decreases |ps|
  {
    hide Rejection;
    if i > 0 {
      FirstComplaint(db, c, ps[1..], i - 1);
      assert ps[1..][i - 1..] == ps[i..];
    } else {
      assert ps[0..] == ps;
    }
  }

  lemma Complaints(db: Tables, c: Context, p: Provider)
    requires Describes(c, db)
    requires Get(db.requests[c.request], REQUEST_TYPE) == Tagged(ERASE) && Get(db.requests[c.request], STATUS) == Tagged(APPROVED)
    ensures Rejection(p, db, c) == match p
      case AUDIT => if OnHold(db, c.subject, c.now) then Some(LEGAL_HOLD_ACTIVE) else None
      case OUTBOX => if BeingDelivered(db, c.subject) then Some(PROCESSING_ROWS_IN_FLIGHT) else None
      case EXPORTS => if BeingExported(db, c.subject) then Some(EXPORT_PROCESSING_ACTIVE)
                      else if Undeletable(db, c.subject) then Some(EXPORT_UNKNOWN_STORAGE_BACKEND) else None
      case _ => None
  {
    hide HoldActive, InFlight, ExportInProgress, UnknownBackend, OnHold, BeingDelivered, BeingExported, Undeletable, SubjectEmail,
      InviteIds, EffectiveEmail;
    HoldExactly(db, c.subject, c.now);
    InFlightExactly(db, c.subject);
    ExportChecksExactly(db, c.subject);
    if ReadsSubject(p) {
      NothingDone(db, c);
      EmailSurvives(db, c, {});
    }
  }

  /** Marking the request as processing changes nothing the providers object to. */
  lemma MarkingKeepsComplaints(db: Tables, request: RowId, now: Time, subject: UserId)
    requires request in db.requests
    ensures var start := Started(db, request, now);
      && OnHold(start, subject, now) == OnHold(db, subject, now) && BeingDelivered(start, subject) == BeingDelivered(db, subject)
      && BeingExported(start, subject) == BeingExported(db, subject) && Undeletable(start, subject) == Undeletable(db, subject)
  {
    hide Selects, AuditConcerns, EventConcerns, ExportConcerns, Snapshot, SubjectEmail, InviteIds, MarkedProcessing, EventSelected,
      OnHold, BeingDelivered;
    var start := Started(db, request, now);
    MarkingKeepsSelection(db, request, now, subject);
    HoldExactly(db, subject, now);
    HoldExactly(start, subject, now);
    InFlightExactly(db, subject);
    InFlightExactly(start, subject);
  }

  /** The first complaint about a database, in the order of the code. */
  lemma FirstOfAll(db: Tables, c: Context, o: seq<Provider>)
    requires Describes(c, db)
    requires Get(db.requests[c.request], REQUEST_TYPE) == Tagged(ERASE) && Get(db.requests[c.request], STATUS) == Tagged(APPROVED)
    requires |o| == 10 && o[0] == AUDIT && o[1] == OUTBOX && o[6] == EXPORTS
    requires forall i :: 2 <= i < 10 ==> o[i] != AUDIT && o[i] != OUTBOX && (i != 6 ==> o[i] != EXPORTS)
    ensures FirstFailure(db, c, o, None) ==
      if OnHold(db, c.subject, c.now) then Some(LEGAL_HOLD_ACTIVE)
      else if BeingDelivered(db, c.subject) then Some(PROCESSING_ROWS_IN_FLIGHT)
      else if BeingExported(db, c.subject) then Some(EXPORT_PROCESSING_ACTIVE)
      else if Undeletable(db, c.subject) then Some(EXPORT_UNKNOWN_STORAGE_BACKEND)
      else None
  {
    hide Rejection, OnHold, BeingDelivered, BeingExported, Undeletable, Describes, FirstFailure;
    forall p ensures Rejection(p, db, c) == match p
      case AUDIT => if OnHold(db, c.subject, c.now) then Some(LEGAL_HOLD_ACTIVE) else None
      case OUTBOX => if BeingDelivered(db, c.subject) then Some(PROCESSING_ROWS_IN_FLIGHT) else None
      case EXPORTS => if BeingExported(db, c.subject) then Some(EXPORT_PROCESSING_ACTIVE)
                      else if Undeletable(db, c.subject) then Some(EXPORT_UNKNOWN_STORAGE_BACKEND) else None
      case _ => None
    { Complaints(db, c, p); }
    if OnHold(db, c.subject, c.now) {
      FirstComplaint(db, c, o, 0);
    } else if BeingDelivered(db, c.subject) {
      FirstComplaint(db, c, o, 1);
    } else if BeingExported(db, c.subject) || Undeletable(db, c.subject) {
      FirstComplaint(db, c, o, 6);
    } else {
      FirstComplaint(db, c, o, 10);
      NothingFails(db, c, o[10..]);
    }
  }

  lemma NothingFails(db: Tables, c: Context, ps: seq<Provider>)
    requires ps == []
    ensures FirstFailure(db, c, ps, None) == None
  {}

  /** How every run without a broken flush ends, read off the database before it. */
  lemma EndsExactly(db: Tables, request: RowId, now: Time)
    ensures var outcome := Executed(db, request, now, ORDER, None).1;
      if request !in db.requests then outcome == Rejected(REQUEST_NOT_FOUND)
      else
        var row := db.requests[request];
        if Get(row, REQUEST_TYPE) != Tagged(ERASE) then outcome == Rejected(REQUIRES_ERASE_REQUEST)
        else if Get(row, EXECUTION_STATUS) == Tagged(READY) then outcome == AlreadyCompleted
        else if Get(row, STATUS) != Tagged(APPROVED) then outcome == Rejected(REQUIRES_APPROVED_REQUEST)
        else if Get(row, EXECUTION_STATUS) == Tagged(IN_PROGRESS) then outcome == Rejected(ALREADY_PROCESSING)
        else if !Get(row, SUBJECT_USER_ID).Ref? then outcome == Rejected(REQUIRES_SUBJECT_USER)
        else
          var subject := Get(row, SUBJECT_USER_ID).ref;
          if subject !in db.users then outcome == FailedRun(SUBJECT_NOT_FOUND)
          else if OnHold(db, subject, now) then outcome == FailedRun(LEGAL_HOLD_ACTIVE)
          else if BeingDelivered(db, subject) then outcome == FailedRun(PROCESSING_ROWS_IN_FLIGHT)
          else if BeingExported(db, subject) then outcome == FailedRun(EXPORT_PROCESSING_ACTIVE)
          else if Undeletable(db, subject) then outcome == FailedRun(EXPORT_UNKNOWN_STORAGE_BACKEND)
          else outcome.Completed?
  {
    hide Executed, OnHold, BeingDelivered, BeingExported, Undeletable, FirstFailure, MarkedProcessing, Describes, SubjectEmail, InviteIds;
    if Refused(db, request).Some? {
      RefusalEnds(db, request, now);
    } else {
      var start, subject := Started(db, request, now), SubjectIn(db, request);
      FailsExactlyWhen(db, request, now, None, SOURCE);
      NotRefusedEnds(db, request, now);
      if subject in db.users {
        StartDescribed(db, request, now);
        MarkingKeepsComplaints(db, request, now, subject);
        MarkedAt(db.requests[request], now, REQUEST_TYPE);
        MarkedAt(db.requests[request], now, STATUS);
        FirstInCode(start, ContextOf(start, request, subject, now));
      }
    }
  }

  lemma RefusalEnds(db: Tables, request: RowId, now: Time)
    requires Refused(db, request).Some?
    ensures Executed(db, request, now, ORDER, None).1 == Refused(db, request).value
  {}

  lemma NotRefusedEnds(db: Tables, request: RowId, now: Time)
    requires Refused(db, request).None?
    ensures var outcome := Executed(db, request, now, ORDER, None).1; outcome.FailedRun? || outcome.Completed?
  {
    hide RunProviders;
  }

  lemma FirstInCode(db: Tables, c: Context)
    requires Describes(c, db)
    requires Get(db.requests[c.request], REQUEST_TYPE) == Tagged(ERASE) && Get(db.requests[c.request], STATUS) == Tagged(APPROVED)
    ensures FirstFailure(db, c, ORDER, None) ==
      if OnHold(db, c.subject, c.now) then Some(LEGAL_HOLD_ACTIVE)
      else if BeingDelivered(db, c.subject) then Some(PROCESSING_ROWS_IN_FLIGHT)
      else if BeingExported(db, c.subject) then Some(EXPORT_PROCESSING_ACTIVE)
      else if Undeletable(db, c.subject) then Some(EXPORT_UNKNOWN_STORAGE_BACKEND)
      else None
  {
    hide OnHold, BeingDelivered, BeingExported, Undeletable, Describes, FirstFailure;
    FirstOfAll(db, c, ORDER);
  }

  /* ---- What a completed run reports ---- */

  lemma {:induction false} ReportsFrom(db: Tables, c: Context, ps: seq<Provider>, i: nat)
    requires i < |ps|
    ensures ReportsAlone(db, c, ps[i..]) == ReportAlone(ps[i], db, c) + ReportsAlone(db, c, ps[i + 1..])
  {
    hide ReportAlone;
    assert ps[i..][0] == ps[i] && ps[i..][1..] == ps[i + 1..];
  }

  ghost function Minimised(key: ResultKey, affected: nat): ProviderResult {
    ProviderResult(key, if affected > 0 then MINIMISED else ALREADY_MINIMISED, affected)
  }

  /** The rows that are not what they were. */
  ghost function Differing<R>(before: map<nat, R>, after: map<nat, R>): set<nat> {
    set k | k in before && k in after && after[k] != before[k]
  }

  /** A provider's part of the report: one result each, three for privacy governance. */
  ghost function PartOf(rs: seq<ProviderResult>, p: Provider): seq<ProviderResult>
    requires |rs| == 12
  {
    match p
    case AUDIT => [rs[0]]
    case OUTBOX => [rs[1]]
    case INVITES => [rs[2]]
    case MEMBERSHIPS => [rs[3]]
    case ORGANISATIONS => [rs[4]]
    case STAFF => [rs[5]]
    case EXPORTS => [rs[6]]
    case GOVERNANCE => rs[7..10]
    case USERS => [rs[10]]
    case REQUESTS => [rs[11]]
  }

  /** The report of a completed run, provider by provider: its place, key and decision, and for each
      rewritten table the number of rows that now differ. */
  lemma CompletedReports(db: Tables, request: RowId, now: Time, subject: UserId, p: Provider)
    requires Completes(db, request, now, subject)
    ensures |Executed(db, request, now, ORDER, None).1.results| == 12
    ensures var after, rs := AfterRun(db, request, now), Executed(db, request, now, ORDER, None).1.results;
      PartOf(rs, p) == match p
      case AUDIT => [Minimised(AUDIT_KEY, |Differing(db.audit, after.audit)|)]
      case OUTBOX => [Minimised(OUTBOX_KEY, |Differing(db.events, after.events)|)]
      case INVITES => [Minimised(INVITES_KEY, |Differing(db.invites, after.invites)|)]
      case MEMBERSHIPS => [ProviderResult(MEMBERSHIPS_KEY, RETAINED_BY_POLICY, 0)]
      case ORGANISATIONS => [ProviderResult(ORGANISATIONS_KEY, MANUAL_REVIEW_POLICY, 0)]
      case STAFF => [Minimised(STAFF_KEY, |Differing(db.staff, after.staff)|)]
      case EXPORTS => [Minimised(EXPORTS_KEY, |Differing(db.exports, after.exports)|)]
      case GOVERNANCE =>
        [Minimised(AUTHORIZATIONS_KEY,
           |Differing(db.authorizations, after.authorizations)|),
         ProviderResult(CONSENTS_KEY, RETAINED_BY_POLICY, 0),
         Minimised(NOTICES_KEY, |Differing(db.notices, after.notices)|)]
      case USERS => [Minimised(USERS_KEY, |Differing(db.users, after.users)|)]
      case REQUESTS => [Minimised(REQUESTS_KEY, |set k | k in db.requests && RequestConcerns(db.requests[k], subject)|)]
  {
    hide Executed, ReportsAlone, Mixed, Rejection, ReportAlone, RequestConcerns, Describes, AfterRun, Minimised, ContextOf, Started,
      Differing, MarkedReady, PartOf;
    CompletedTables(db, request, now);
    CompletedRun(db, request, now);
    var start := Started(db, request, now);
    var c := ContextOf(start, request, subject, now);
    AllReportsInCode(start, c, ReportsAlone(start, c, ORDER), p);
    ReportRead(p, db, request, now, subject);
  }

  lemma AllReportsInCode(db: Tables, c: Context, rs: seq<ProviderResult>, p: Provider)
    requires rs == ReportsAlone(db, c, ORDER)
    ensures |rs| == 12 && PartOf(rs, p) == ReportAlone(p, db, c)
  {
    hide ReportsAlone, ReportAlone;
    AllReports(db, c, ORDER, rs);
  }

  /** Each report, read off the databases before and after the run. */
  lemma ReportRead(p: Provider, db: Tables, request: RowId, now: Time, subject: UserId)
    requires Completes(db, request, now, subject)
    ensures var after, start := AfterRun(db, request, now), Started(db, request, now);
      ReportAlone(p, start, ContextOf(start, request, subject, now)) == match p
      case AUDIT => [Minimised(AUDIT_KEY, |Differing(db.audit, after.audit)|)]
      case OUTBOX => [Minimised(OUTBOX_KEY, |Differing(db.events, after.events)|)]
      case INVITES => [Minimised(INVITES_KEY, |Differing(db.invites, after.invites)|)]
      case MEMBERSHIPS => [ProviderResult(MEMBERSHIPS_KEY, RETAINED_BY_POLICY, 0)]
      case ORGANISATIONS => [ProviderResult(ORGANISATIONS_KEY, MANUAL_REVIEW_POLICY, 0)]
      case STAFF => [Minimised(STAFF_KEY, |Differing(db.staff, after.staff)|)]
      case EXPORTS => [Minimised(EXPORTS_KEY, |Differing(db.exports, after.exports)|)]
      case GOVERNANCE =>
        [Minimised(AUTHORIZATIONS_KEY,
           |Differing(db.authorizations, after.authorizations)|),
         ProviderResult(CONSENTS_KEY, RETAINED_BY_POLICY, 0),
         Minimised(NOTICES_KEY, |Differing(db.notices, after.notices)|)]
      case USERS => [Minimised(USERS_KEY, |Differing(db.users, after.users)|)]
      case REQUESTS => [Minimised(REQUESTS_KEY, |set k | k in db.requests && RequestConcerns(db.requests[k], subject)|)]
  {
    hide Executed, After, ErasedEvents, ErasedInvites, Snapshot, InviteIds, SubjectEmail, MarkedReady, MarkedProcessing,
      Mixed, RequestConcerns, Changed, Differing, Minimised, ReportAlone, AfterRun;
    TablesOf(db, request, now, subject);
    MarkingKeepsSelection(db, request, now, subject);
    SameRows(db, request, now, subject);
    var start, after := Started(db, request, now), AfterRun(db, request, now);
    ReportIs(p, start, ContextOf(start, request, subject, now));
    match p
    case AUDIT => DifferingRows(db.audit, after.audit);
    case OUTBOX => DifferingRows(db.events, after.events);
    case INVITES => DifferingRows(db.invites, after.invites);
    case STAFF => DifferingRows(db.staff, after.staff);
    case EXPORTS => DifferingRows(db.exports, after.exports);
    case GOVERNANCE =>
      DifferingRows(db.authorizations, after.authorizations);
      DifferingRows(db.notices, after.notices);
    case USERS => DifferingRows(db.users, after.users);
    case REQUESTS => RequestReport(db, request, now, subject);
    case _ =>
  }

  lemma DifferingRows<R>(before: map<nat, R>, after: map<nat, R>)
    requires before.Keys == after.Keys
    ensures Changed(before, after) == Differing(before, after)
  {}

  /** Every request with a link changes, and no other one. */
  lemma RequestReport(db: Tables, request: RowId, now: Time, subject: UserId)
    requires request in db.requests
    ensures var start := Started(db, request, now);
      Changed(start.requests, After(RequestJob(subject), start.requests))
      == set k | k in db.requests && RequestConcerns(db.requests[k], subject)
  {
    hide Treated, RequestConcerns, MarkedProcessing;
    var start := Started(db, request, now);
    forall k | k in db.requests
      ensures k in start.requests
              && (Treated(RequestJob(subject), k, start.requests[k]) != start.requests[k] <==> RequestConcerns(db.requests[k], subject))
    {
      RequestChanges(k, start.requests[k], subject);
      if k == request { MarkedConcerns(db.requests[k], now, subject); }
    }
  }

  lemma MarkedConcerns(r: Row, now: Time, subject: UserId)
    ensures RequestConcerns(MarkedProcessing(r, now), subject) <==> RequestConcerns(r, subject)
  {}

  lemma RequestChanges(k: RowId, r: Row, subject: UserId)
    ensures Treated(RequestJob(subject), k, r) != r <==> RequestConcerns(r, subject)
  {
    hide Treated;
    RequestRowExactly(k, r, subject, SUBJECT_USER_ID);
    RequestRowExactly(k, r, subject, REQUESTER_USER_ID);
    RequestRowExactly(k, r, subject, REVIEWER_USER_ID);
    RequestRowExactly(k, r, subject, REPRESENTATIVE_VERIFIED_BY_USER_ID);
  }

  /** What each provider reports alone. */
  lemma ReportIs(p: Provider, db: Tables, c: Context)
    ensures ReportAlone(p, db, c) == match p
      case AUDIT => [Minimised(AUDIT_KEY, |Changed(db.audit, After(AuditJob(Snapshot(db, c.subject)), db.audit))|)]
      case OUTBOX => [Minimised(OUTBOX_KEY, |Changed(db.events, ErasedEvents(db.events, c.email, c.inviteIds))|)]
      case INVITES => [Minimised(INVITES_KEY, |Changed(db.invites, ErasedInvites(db.invites, c.subject, c.email, c.now))|)]
      case MEMBERSHIPS => [ProviderResult(MEMBERSHIPS_KEY, RETAINED_BY_POLICY, 0)]
      case ORGANISATIONS => [ProviderResult(ORGANISATIONS_KEY, MANUAL_REVIEW_POLICY, 0)]
      case STAFF => [Minimised(STAFF_KEY, |Changed(db.staff, After(StaffJob(c.subject), db.staff))|)]
      case EXPORTS => [Minimised(EXPORTS_KEY, |Changed(db.exports, After(ExportJob(c.subject), db.exports))|)]
      case GOVERNANCE =>
        [Minimised(AUTHORIZATIONS_KEY, |Changed(db.authorizations, After(SourceJob(c.subject), db.authorizations))|),
         ProviderResult(CONSENTS_KEY, RETAINED_BY_POLICY, 0),
         Minimised(NOTICES_KEY, |Changed(db.notices, After(SourceJob(c.subject), db.notices))|)]
      case USERS => [Minimised(USERS_KEY, |Changed(db.users, After(UserJob(c.subject), db.users))|)]
      case REQUESTS => [Minimised(REQUESTS_KEY, |Changed(db.requests, After(RequestJob(c.subject), db.requests))|)]
  {
    hide After, ErasedEvents, ErasedInvites, Snapshot, Changed;
  }

  /** The reports of ten independent providers, one after the other: the last three, the three
      before, and all. */
  lemma LastReports(db: Tables, c: Context, o: seq<Provider>, rs: seq<ProviderResult>)
    requires |o| == 10 && o[7] == GOVERNANCE && o[8] == USERS && o[9] == REQUESTS && rs == ReportsAlone(db, c, o[7..])
    ensures |rs| == 5 && rs[..3] == ReportAlone(GOVERNANCE, db, c)
    ensures [rs[3]] == ReportAlone(USERS, db, c) && [rs[4]] == ReportAlone(REQUESTS, db, c)
  {
    hide ReportsAlone, ReportAlone;
    NoReports(db, c, o[10..]);
    ReportSizes(db, c);
    ReportsFrom(db, c, o, 9);
    ReportsFrom(db, c, o, 8);
    ReportsFrom(db, c, o, 7);
  }

  lemma LaterReports(db: Tables, c: Context, o: seq<Provider>, rs: seq<ProviderResult>)
    requires |o| == 10 && o[4] == ORGANISATIONS && o[5] == STAFF && o[6] == EXPORTS
    requires rs == ReportsAlone(db, c, o[4..])
    ensures |rs| >= 3 && rs[3..] == ReportsAlone(db, c, o[7..])
    ensures [rs[0]] == ReportAlone(ORGANISATIONS, db, c) && [rs[1]] == ReportAlone(STAFF, db, c)
    ensures [rs[2]] == ReportAlone(EXPORTS, db, c)
  {
    hide ReportsAlone, ReportAlone;
    ReportSizes(db, c);
    ReportsFrom(db, c, o, 6);
    ReportsFrom(db, c, o, 5);
    ReportsFrom(db, c, o, 4);
  }

  lemma FirstReports(db: Tables, c: Context, o: seq<Provider>, rs: seq<ProviderResult>)
    requires |o| == 10 && o[0] == AUDIT && o[1] == OUTBOX && o[2] == INVITES && o[3] == MEMBERSHIPS
    requires rs == ReportsAlone(db, c, o)
    ensures |rs| >= 4 && rs[4..] == ReportsAlone(db, c, o[4..])
    ensures [rs[0]] == ReportAlone(AUDIT, db, c) && [rs[1]] == ReportAlone(OUTBOX, db, c)
    ensures [rs[2]] == ReportAlone(INVITES, db, c) && [rs[3]] == ReportAlone(MEMBERSHIPS, db, c)
  {
    hide ReportsAlone, ReportAlone;
    assert o[0..] == o;
    ReportSizes(db, c);
    ReportsFrom(db, c, o, 3);
    ReportsFrom(db, c, o, 2);
    ReportsFrom(db, c, o, 1);
    ReportsFrom(db, c, o, 0);
  }

  lemma AllReports(db: Tables, c: Context, o: seq<Provider>, rs: seq<ProviderResult>)
    requires |o| == 10 && o[0] == AUDIT && o[1] == OUTBOX && o[2] == INVITES && o[3] == MEMBERSHIPS
    requires o[4] == ORGANISATIONS && o[5] == STAFF && o[6] == EXPORTS && o[7] == GOVERNANCE
    requires o[8] == USERS && o[9] == REQUESTS
    requires rs == ReportsAlone(db, c, o)
    ensures |rs| == 12
    ensures [rs[0]] == ReportAlone(AUDIT, db, c) && [rs[1]] == ReportAlone(OUTBOX, db, c)
    ensures [rs[2]] == ReportAlone(INVITES, db, c) && [rs[3]] == ReportAlone(MEMBERSHIPS, db, c)
    ensures [rs[4]] == ReportAlone(ORGANISATIONS, db, c) && [rs[5]] == ReportAlone(STAFF, db, c)
    ensures [rs[6]] == ReportAlone(EXPORTS, db, c) && rs[7..10] == ReportAlone(GOVERNANCE, db, c)
    ensures [rs[10]] == ReportAlone(USERS, db, c) && [rs[11]] == ReportAlone(REQUESTS, db, c)
  {
    hide ReportsAlone, ReportAlone;
    FirstReports(db, c, o, rs);
    LaterReports(db, c, o, rs[4..]);
    LastReports(db, c, o, rs[4..][3..]);
  }

  lemma NoReports(db: Tables, c: Context, ps: seq<Provider>)
    requires ps == []
    ensures ReportsAlone(db, c, ps) == []
  {}

  lemma ReportSizes(db: Tables, c: Context)
    ensures forall p :: |ReportAlone(p, db, c)| == if p == GOVERNANCE then 3 else 1
  {
    hide Changed, Mixed, Mutated;
  }
}
