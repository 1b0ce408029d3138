/** Which rows of the database concern a subject, and what the providers leave of one such row,
    told column by column. */
module ErasureLaws {
  import opened Common
  import opened Records
  import opened TextRules
  import opened ErasureTables

  /* ---- What concerns a subject ---- */

  ghost predicate Holds(r: Row, f: Field, subject: UserId) { f in r && r[f] == Ref(subject) }

  /** The address is the one of the subject's profile, as the queries compare addresses. */
  ghost predicate IsAddressOf(db: Tables, subject: UserId, text: string) {
    && subject in db.users && USER_EMAIL in db.users[subject] && db.users[subject][USER_EMAIL].Str?
    && var own := Normalised(db.users[subject][USER_EMAIL].text);
       own != "" && SqlNormalised(text) == own
  }

  ghost predicate InviteConcerns(db: Tables, subject: UserId, k: InviteId) {
    && k in db.invites
    && (db.invites[k].revokedByUserId == Some(subject) || IsAddressOf(db, subject, db.invites[k].email))
  }

  ghost predicate EventConcerns(db: Tables, subject: UserId, e: Event) {
    || (e.aggregateId.Some? && InviteConcerns(db, subject, e.aggregateId.value))
    || (&& e.payload.Object? && EMAIL in e.payload.fields && e.payload.fields[EMAIL].Text?
        && IsAddressOf(db, subject, e.payload.fields[EMAIL].text))
  }

  ghost predicate ExportConcerns(r: Row, subject: UserId) {
    || Holds(r, SUBJECT_USER_ID, subject) || Holds(r, REQUESTER_USER_ID, subject)
    || Holds(r, REQUESTED_BY_USER_ID, subject) || Holds(r, GENERATED_BY_USER_ID, subject)
  }

  ghost predicate RequestConcerns(r: Row, subject: UserId) {
    || Holds(r, SUBJECT_USER_ID, subject) || Holds(r, REQUESTER_USER_ID, subject)
    || Holds(r, REVIEWER_USER_ID, subject) || Holds(r, REPRESENTATIVE_VERIFIED_BY_USER_ID, subject)
  }

  ghost predicate StaffConcerns(r: Row, subject: UserId) {
    Holds(r, USER_ID, subject) || Holds(r, CREATED_BY_USER_ID, subject)
  }

  ghost predicate TargetConcerns(db: Tables, subject: UserId, kind: TargetType, k: nat) {
    match kind
    case USER => k == subject
    case PRIVACY_CONSENT => k == subject
    case PRIVACY_NOTICE => k == subject
    case INVITE => InviteConcerns(db, subject, k)
    case MEMBERSHIP => k in db.memberships && Holds(db.memberships[k], USER_ID, subject)
    case DATA_SUBJECT_REQUEST => k in db.requests && RequestConcerns(db.requests[k], subject)
    case EXPORT_ARTIFACT => k in db.exports && ExportConcerns(db.exports[k], subject)
    case PLATFORM_STAFF => k in db.staff && StaffConcerns(db.staff[k], subject)
    case OTHER_TARGET(_) => false
  }

  ghost predicate PointsAtSubject(db: Tables, subject: UserId, r: Row) {
    && TARGET_TYPE in r && r[TARGET_TYPE].Kind? && TARGET_ID in r && r[TARGET_ID].Ref?
    && TargetConcerns(db, subject, r[TARGET_TYPE].kind, r[TARGET_ID].ref)
  }

  ghost predicate AuditConcerns(db: Tables, subject: UserId, r: Row) {
    Holds(r, ACTOR_USER_ID, subject) || PointsAtSubject(db, subject, r)
  }

  /* ---- The providers select exactly that ---- */

  lemma AddressExactly(db: Tables, subject: UserId, text: string)
    ensures IsAddressOf(db, subject, text)
            <==> SubjectEmail(db, subject).Some? && SqlNormalised(text) == SubjectEmail(db, subject).value
  {
    hide Normalised, SqlNormalised;
  }

  lemma InvitesExactly(db: Tables, subject: UserId, k: InviteId)
    ensures k in InviteIds(db.invites, subject, SubjectEmail(db, subject)) <==> InviteConcerns(db, subject, k)
    ensures InviteConcerns(db, subject, k) ==> k in db.invites
  {
    hide SubjectEmail, IsAddressOf, SqlNormalised;
    if k in db.invites {
      AddressExactly(db, subject, db.invites[k].email);
    }
  }

  lemma EventsExactly(db: Tables, subject: UserId, e: Event)
    ensures var email := SubjectEmail(db, subject);
      EventSelected(e, email, InviteIds(db.invites, subject, email)) <==> EventConcerns(db, subject, e)
  {
    hide SubjectEmail, IsAddressOf, SqlNormalised, InviteIds, InviteConcerns;
    if e.aggregateId.Some? {
      InvitesExactly(db, subject, e.aggregateId.value);
    }
    if e.payload.Object? && EMAIL in e.payload.fields && e.payload.fields[EMAIL].Text? {
      AddressExactly(db, subject, e.payload.fields[EMAIL].text);
    }
  }

  lemma ExportsExactly(id: RowId, r: Row, subject: UserId)
    ensures Selects(ExportJob(subject), id, r) <==> ExportConcerns(r, subject)
    ensures Linked(r, EXPORT_LINKS, subject) <==> ExportConcerns(r, subject)
  {
    assert SUBJECT_USER_ID in EXPORT_LINKS && REQUESTER_USER_ID in EXPORT_LINKS
        && REQUESTED_BY_USER_ID in EXPORT_LINKS && GENERATED_BY_USER_ID in EXPORT_LINKS;
  }

  lemma RequestsExactly(id: RowId, r: Row, subject: UserId)
    ensures Selects(RequestJob(subject), id, r) <==> RequestConcerns(r, subject)
    ensures Linked(r, REQUEST_LINKS, subject) <==> RequestConcerns(r, subject)
  {
    assert SUBJECT_USER_ID in REQUEST_LINKS && REQUESTER_USER_ID in REQUEST_LINKS
        && REVIEWER_USER_ID in REQUEST_LINKS && REPRESENTATIVE_VERIFIED_BY_USER_ID in REQUEST_LINKS;
  }

  lemma StaffExactly(id: RowId, r: Row, subject: UserId)
    ensures Selects(StaffJob(subject), id, r) <==> StaffConcerns(r, subject)
    ensures Linked(r, STAFF_LINKS, subject) <==> StaffConcerns(r, subject)
  {
    assert USER_ID in STAFF_LINKS && CREATED_BY_USER_ID in STAFF_LINKS;
  }

  lemma TargetsExactly(db: Tables, subject: UserId, kind: TargetType, k: nat)
    ensures k in TargetIds(Snapshot(db, subject), kind) <==> TargetConcerns(db, subject, kind, k)
  {
    hide SubjectEmail, InviteIds, InviteConcerns, Selects, ExportConcerns, RequestConcerns, StaffConcerns;
    match kind
    case INVITE => InvitesExactly(db, subject, k);
    case DATA_SUBJECT_REQUEST => if k in db.requests { RequestsExactly(k, db.requests[k], subject); }
    case EXPORT_ARTIFACT => if k in db.exports { ExportsExactly(k, db.exports[k], subject); }
    case PLATFORM_STAFF => if k in db.staff { StaffExactly(k, db.staff[k], subject); }
    case _ =>
  }

  lemma PointersExactly(db: Tables, subject: UserId, r: Row)
    ensures IsSubjectTarget(r, Snapshot(db, subject)) <==> PointsAtSubject(db, subject, r)
  {
    hide Snapshot, TargetIds, TargetConcerns;
    if Get(r, TARGET_ID).Ref? && Get(r, TARGET_TYPE).Kind? {
      TargetsExactly(db, subject, Get(r, TARGET_TYPE).kind, Get(r, TARGET_ID).ref);
    }
  }

  lemma AuditExactly(db: Tables, subject: UserId, id: RowId, r: Row)
    ensures Selects(AuditJob(Snapshot(db, subject)), id, r) <==> AuditConcerns(db, subject, r)
  {
    hide Snapshot, IsSubjectTarget, PointsAtSubject;
    PointersExactly(db, subject, r);
    SnapshotSubject(db, subject);
  }

  /* ---- One row of each table ---- */

  /** An audit event that does not concern the subject stays; one that does loses its context and
      every column that names the subject, and nothing else. */
  ghost predicate AuditLeft(db: Tables, subject: UserId, r: Row, a: Row) {
    && !Holds(a, ACTOR_USER_ID, subject) && !PointsAtSubject(db, subject, a)
    && if !Holds(r, ACTOR_USER_ID, subject) && !PointsAtSubject(db, subject, r) then a == r
       else forall f ::
         Get(a, f) == if f == REASON || f == METADATA_JSON || f == IP_ADDRESS || f == USER_AGENT then Nil
                      else if f == ACTOR_USER_ID && Holds(r, ACTOR_USER_ID, subject) then Nil
                      else if f == TARGET_ID && PointsAtSubject(db, subject, r) then Nil
                      else Get(r, f)
  }

  lemma AuditRowExactly(db: Tables, subject: UserId, id: RowId, r: Row)
    ensures AuditLeft(db, subject, r, Treated(AuditJob(Snapshot(db, subject)), id, r))
  {
    hide Snapshot, IsSubjectTarget, TargetConcerns, MinimisedAudit;
    AuditExactly(db, subject, id, r);
    PointersExactly(db, subject, r);
    SnapshotSubject(db, subject);
    var a := MinimisedAudit(r, Snapshot(db, subject));
    forall f { MinimisedAuditExactly(r, Snapshot(db, subject), f); }
    assert Get(a, ACTOR_USER_ID) != Ref(subject);
    assert PointsAtSubject(db, subject, r) ==> Get(a, TARGET_ID) == Nil;
    assert !PointsAtSubject(db, subject, r) ==> Get(a, TARGET_ID) == Get(r, TARGET_ID) && Get(a, TARGET_TYPE) == Get(r, TARGET_TYPE);
  }

  lemma MinimisedAuditExactly(r: Row, snap: AuditSnapshot, f: Field)
    ensures Get(MinimisedAudit(r, snap), f)
            == if f == REASON || f == METADATA_JSON || f == IP_ADDRESS || f == USER_AGENT then Nil
               else if f == ACTOR_USER_ID && Get(r, ACTOR_USER_ID) == Ref(snap.subject) then Nil
               else if f == TARGET_ID && IsSubjectTarget(r, snap) then Nil
               else Get(r, f)
  {
    hide TargetIds;
  }

  lemma SetAt(r: Row, g: Field, v: Val, f: Field)
    ensures Get(Set(r, g, v), f) == if f == g then v else Get(r, f)
  {}

  lemma UnlinkedAt(r: Row, fields: set<Field>, subject: UserId, f: Field)
    ensures Get(Unlinked(r, fields, subject), f) == if f in fields && Holds(r, f, subject) then Nil else Get(r, f)
  {}

  lemma ClearedAt(r: Row, fields: set<Field>, f: Field)
    ensures Get(Cleared(r, fields), f) == if f in fields then Nil else Get(r, f)
  {}

  /** An export the subject has no part in stays; in the others every column naming the subject
      goes, and what was made for the subject loses its file data and, while there may still be
      an object, is cancelled. */
  lemma ExportRowExactly(id: RowId, r: Row, subject: UserId, f: Field)
    ensures var a := Treated(ExportJob(subject), id, r);
      var owned := Holds(r, SUBJECT_USER_ID, subject) || Holds(r, REQUESTER_USER_ID, subject);
      var open := owned && (Get(r, STORAGE_KEY) != Nil || Get(r, STATUS) == Tagged(QUEUED) || Get(r, STATUS) == Tagged(READY));
      && (!ExportConcerns(r, subject) ==> a == r)
      && (ExportConcerns(r, subject) ==>
            Get(a, f) ==
              if f == SUBJECT_USER_ID || f == REQUESTER_USER_ID || f == REQUESTED_BY_USER_ID || f == GENERATED_BY_USER_ID
              then (if Holds(r, f, subject) then Nil else Get(r, f))
              else if f == STATUS && open then Tagged(CANCELLED)
              else if f == FAILURE_REASON_CODE && open then Because(SUBJECT_ERASURE_REQUESTED)
              else if owned && (f == FILENAME || f == CONTENT_TYPE || f == SIZE_BYTES || f == CHECKSUM_SHA256
                                || f == FAILURE_DETAIL || f == PROCESSING_TOKEN || f == PROCESSING_LEASE_EXPIRES_AT) then Nil
              else Get(r, f))
  {
    ExportsExactly(id, r, subject);
    if ExportConcerns(r, subject) {
      MinimisedExportExactly(r, subject, f);
    }
    hide MinimisedExport, Linked, ExportConcerns;
  }

  lemma MinimisedExportExactly(r: Row, subject: UserId, f: Field)
    ensures Get(MinimisedExport(r, subject), f) ==
        if f == SUBJECT_USER_ID || f == REQUESTER_USER_ID || f == REQUESTED_BY_USER_ID || f == GENERATED_BY_USER_ID
        then (if Holds(r, f, subject) then Nil else Get(r, f))
        else if f == STATUS && Retryable(r, subject) then Tagged(CANCELLED)
        else if f == FAILURE_REASON_CODE && Retryable(r, subject) then Because(SUBJECT_ERASURE_REQUESTED)
        else if Owned(r, subject) && (f == FILENAME || f == CONTENT_TYPE || f == SIZE_BYTES || f == CHECKSUM_SHA256
             || f == FAILURE_DETAIL || f == PROCESSING_TOKEN || f == PROCESSING_LEASE_EXPIRES_AT) then Nil
        else Get(r, f)
  {
    hide Owned, Retryable, Set, Unlinked, Cleared;
    var r1 := if Retryable(r, subject)
              then Set(Set(r, STATUS, Tagged(CANCELLED)), FAILURE_REASON_CODE, Because(SUBJECT_ERASURE_REQUESTED))
              else r;
    SetAt(r, STATUS, Tagged(CANCELLED), f);
    SetAt(Set(r, STATUS, Tagged(CANCELLED)), FAILURE_REASON_CODE, Because(SUBJECT_ERASURE_REQUESTED), f);
    UnlinkedAt(r1, EXPORT_LINKS, subject, f);
    ClearedAt(Unlinked(r1, EXPORT_LINKS, subject), EXPORT_METADATA, f);
  }

  /** A request the subject has no part in stays; in the others every column naming the subject
      goes, and one by or about the subject loses its details. */
  lemma RequestRowExactly(id: RowId, r: Row, subject: UserId, f: Field)
    ensures var a := Treated(RequestJob(subject), id, r);
      var owned := Holds(r, SUBJECT_USER_ID, subject) || Holds(r, REQUESTER_USER_ID, subject);
      && (!RequestConcerns(r, subject) ==> a == r)
      && (RequestConcerns(r, subject) ==>
            Get(a, f) ==
              if f == SUBJECT_USER_ID || f == REQUESTER_USER_ID || f == REVIEWER_USER_ID || f == REPRESENTATIVE_VERIFIED_BY_USER_ID
              then (if Holds(r, f, subject) then Nil else Get(r, f))
              else if owned && (f == REQUESTER_NOTE || f == REPRESENTATIVE_RELATIONSHIP || f == REPRESENTATIVE_AUTHORITY_NOTE
                                || f == REPRESENTATIVE_REJECTION_REASON_CODE || f == INTERNAL_NOTE || f == EXECUTION_FAILURE_DETAIL
                                || f == IDEMPOTENCY_KEY_HASH || f == IDEMPOTENCY_FINGERPRINT || f == IDEMPOTENCY_KEY_EXPIRES_AT
                                || f == EXPORT_ARTIFACT_ID || f == ERASURE_JOB_ID) then Nil
              else Get(r, f))
  {
    RequestsExactly(id, r, subject);
    MinimisedRequestExactly(r, subject, f);
    hide MinimisedRequest, Linked, RequestConcerns;
  }

  lemma MinimisedRequestExactly(r: Row, subject: UserId, f: Field)
    ensures Get(MinimisedRequest(r, subject), f) ==
        if f == SUBJECT_USER_ID || f == REQUESTER_USER_ID || f == REVIEWER_USER_ID || f == REPRESENTATIVE_VERIFIED_BY_USER_ID
        then (if Holds(r, f, subject) then Nil else Get(r, f))
        else if Owned(r, subject) && (f == REQUESTER_NOTE || f == REPRESENTATIVE_RELATIONSHIP || f == REPRESENTATIVE_AUTHORITY_NOTE
             || f == REPRESENTATIVE_REJECTION_REASON_CODE || f == INTERNAL_NOTE || f == EXECUTION_FAILURE_DETAIL
             || f == IDEMPOTENCY_KEY_HASH || f == IDEMPOTENCY_FINGERPRINT || f == IDEMPOTENCY_KEY_EXPIRES_AT
             || f == EXPORT_ARTIFACT_ID || f == ERASURE_JOB_ID) then Nil
        else Get(r, f)
  {
    hide Owned;
  }

  lemma StaffRowExactly(id: RowId, r: Row, subject: UserId, f: Field)
    ensures var a := Treated(StaffJob(subject), id, r);
      if !StaffConcerns(r, subject) then a == r
      else Get(a, f) == if f == SUSPENDED_REASON then Nil
                        else if f == CREATED_BY_USER_ID && Holds(r, CREATED_BY_USER_ID, subject) then Nil
                        else Get(r, f)
  {
    hide Linked;
    StaffExactly(id, r, subject);
  }

  lemma SourceRowExactly(id: RowId, r: Row, subject: UserId, f: Field)
    ensures var a := Treated(SourceJob(subject), id, r);
      if !Holds(r, SUBJECT_USER_ID, subject) then a == r
      else Get(a, f) == if f == SOURCE then Nil else Get(r, f)
  {}

  lemma UserRowExactly(id: RowId, r: Row, subject: UserId, f: Field)
    ensures var a := Treated(UserJob(subject), id, r);
      if id != subject then a == r
      else Get(a, f) == if f == EXTERNAL_AUTH_ID then Str("erased-user:" + Decimal(subject))
                        else if f == EMAIL_VERIFIED || f == ONBOARDING_COMPLETED then Bool(false)
                        else if f == USER_EMAIL || f == FIRST_NAME || f == LAST_NAME || f == SUSPENDED_REASON then Nil
                        else Get(r, f)
  {
    hide AnonymisedUser;
    UserRowMeaning(r, subject, f);
  }

  /** An invite the subject has no part in stays. In the others the subject is no longer the one
      who revoked it; and if it is under the subject's address and not a tombstone yet, it becomes
      one, which ends it if it was pending. */
  lemma InviteRowExactly(db: Tables, subject: UserId, k: InviteId, now: Time)
    requires k in db.invites
    ensures var i, a := db.invites[k], TreatedInvite(k, db.invites[k], subject, SubjectEmail(db, subject), now);
      var tombstone := EndsWith(i.email, "@anonymous.invalid") && i.tokenHash.ScrubbedHash?;
      var under := SubjectEmail(db, subject).Some? && Normalised(i.email) == SubjectEmail(db, subject).value;
      && a.revokedByUserId == (if i.revokedByUserId == Some(subject) then None else i.revokedByUserId)
      && if InviteConcerns(db, subject, k) && under && !tombstone
         then && a.email == "deleted-invite-" + Decimal(k) + "@anonymous.invalid" && a.tokenHash == ScrubbedHash(k)
              && a.expiresAt == None
              && a.status == (if i.status == InvitePending then InviteRevoked else i.status)
              && a.revokedAt == (if i.status == InvitePending then Some(now) else i.revokedAt)
              && a.organisationId == i.organisationId && a.role == i.role
              && a.createdAt == i.createdAt && a.updatedAt == i.updatedAt
         else a == i.(revokedByUserId := a.revokedByUserId)
  {
    hide SubjectEmail, IsAddressOf, SqlNormalised, Normalised, Decimal, EndsWith;
    AddressExactly(db, subject, db.invites[k].email);
  }

  /** An event that does not concern the subject stays. Of the others four members are kept and
      two marks are set; one that was waiting is ended, and a foreign error text goes. */
  lemma EventRowExactly(db: Tables, subject: UserId, e: Event, key: PayloadKey)
    ensures var email := SubjectEmail(db, subject);
      var a := TreatedEvent(e, email, InviteIds(db.invites, subject, email));
      if !EventConcerns(db, subject, e) then a == e
      else
        && a.payload.Object?
        && (key in a.payload.fields <==>
             || key == SENSITIVE_PAYLOAD_SCRUBBED || key == PRIVACY_ERASURE_SCRUBBED
             || (e.payload.Object? && key in e.payload.fields
                 && (key == INVITE_ID || key == ORGANISATION_ID || key == PURPOSE || key == ROLE)))
        && (key in a.payload.fields ==>
              a.payload.fields[key] ==
                if key == SENSITIVE_PAYLOAD_SCRUBBED || key == PRIVACY_ERASURE_SCRUBBED then Flag(true) else e.payload.fields[key])
        && (if e.status == PENDING
            then a == e.(payload := a.payload, status := FAILED, lockedAt := None, nextAttemptAt := None,
                         lastError := Some("privacy_erasure_scrubbed"))
            else a == e.(payload := a.payload,
                         lastError := if e.lastError == Some("privacy_erasure_scrubbed") then e.lastError else None))
  {
    EventsExactly(db, subject, e);
    hide SubjectEmail, EventConcerns, InviteIds, EventSelected;
  }
}
