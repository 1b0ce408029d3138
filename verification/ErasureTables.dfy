/** The tables subject erasure rewrites, which of their rows concern a subject, and what erasure
    makes of one such row. Rows other than invites and events are read and written field by
    field, as the providers do. */
module ErasureTables {
  import opened Common
  import opened Records
  import opened TextRules
  import opened Scrubbing

  type RowId = nat

  datatype Field =
    // audit_events
    | ACTOR_USER_ID | TARGET_TYPE | TARGET_ID | REASON | METADATA_JSON | IP_ADDRESS | USER_AGENT | LEGAL_HOLD_UNTIL
    // users
    | EXTERNAL_AUTH_ID | USER_EMAIL | EMAIL_VERIFIED | FIRST_NAME | LAST_NAME | ONBOARDING_COMPLETED
    // platform_staff, memberships
    | USER_ID | CREATED_BY_USER_ID | SUSPENDED_REASON | MEMBER_ORGANISATION_ID
    // export_artifacts, data_subject_requests, privacy governance
    | SUBJECT_USER_ID | REQUESTER_USER_ID | REQUESTED_BY_USER_ID | GENERATED_BY_USER_ID
    | STATUS | FAILURE_REASON_CODE | STORAGE_BACKEND | STORAGE_KEY | FILENAME | CONTENT_TYPE | SIZE_BYTES
    | CHECKSUM_SHA256 | FAILURE_DETAIL | PROCESSING_TOKEN | PROCESSING_LEASE_EXPIRES_AT
    | REQUEST_TYPE | REVIEWER_USER_ID | REPRESENTATIVE_VERIFIED_BY_USER_ID | REQUESTER_NOTE
    | REPRESENTATIVE_RELATIONSHIP | REPRESENTATIVE_AUTHORITY_NOTE | REPRESENTATIVE_REJECTION_REASON_CODE
    | INTERNAL_NOTE | IDEMPOTENCY_KEY_HASH | IDEMPOTENCY_FINGERPRINT | IDEMPOTENCY_KEY_EXPIRES_AT
    | EXPORT_ARTIFACT_ID | ERASURE_JOB_ID | SOURCE
    | EXECUTION_STATUS | EXECUTION_STARTED_AT | EXECUTION_COMPLETED_AT | EXECUTION_FAILED_AT
    | EXECUTION_FAILURE_REASON_CODE | EXECUTION_FAILURE_DETAIL
    | OTHER_FIELD(name: string)

  datatype TargetType =
    | USER | PRIVACY_CONSENT | PRIVACY_NOTICE | INVITE | MEMBERSHIP | DATA_SUBJECT_REQUEST
    | EXPORT_ARTIFACT | PLATFORM_STAFF | OTHER_TARGET(name: string)

  datatype Tag =
    | ERASE | APPROVED | QUEUED | IN_PROGRESS | READY | CANCELLED | FAILED_RUN | LOCAL | S3_COMPATIBLE
    | OTHER_TAG(name: string)

  datatype Reason =
    | REQUEST_NOT_FOUND | REQUIRES_ERASE_REQUEST | REQUIRES_APPROVED_REQUEST | ALREADY_PROCESSING
    | REQUIRES_SUBJECT_USER | SUBJECT_NOT_FOUND | LEGAL_HOLD_ACTIVE | PROCESSING_ROWS_IN_FLIGHT
    | EXPORT_PROCESSING_ACTIVE | EXPORT_UNKNOWN_STORAGE_BACKEND | ORCHESTRATION_FAILED
    | SUBJECT_ERASURE_REQUESTED

  datatype Val =
    | Nil | Ref(ref: nat) | Str(text: string) | Bool(flag: bool) | At(time: Time) | Kind(kind: TargetType)
    | Tagged(tag: Tag) | Because(reason: Reason)

  type Row = map<Field, Val>
  type Table = map<RowId, Row>

  function Get(r: Row, f: Field): Val { if f in r then r[f] else Nil }

  /** `_set_if_changed`. */
  function Set(r: Row, f: Field, v: Val): Row { if Get(r, f) == v then r else r[f := v] }

  /** The row with the fields set to null. */
  function Cleared(r: Row, fields: set<Field>): Row { map f | f in r :: if f in fields then Nil else r[f] }

  /** The row with those of the fields set to null that refer to the subject. */
  function Unlinked(r: Row, fields: set<Field>, subject: UserId): Row {
    map f | f in r :: if f in fields && r[f] == Ref(subject) then Nil else r[f]
  }

  predicate Linked(r: Row, fields: set<Field>, subject: UserId) {
    exists f :: f in fields && Get(r, f) == Ref(subject)
  }

  /** The loop over field names that clears a row; it reports whether the row changed. */
  method ClearFields(row: Row, names: seq<Field>) returns (r: Row, changed: bool)
    ensures r == Cleared(row, Elements(names))
    ensures changed <==> r != row
  {
    r, changed := row, false;
    for i := 0 to |names|
      invariant r == Cleared(row, Elements(names[..i]))
      invariant changed <==> r != row
    {
      assert Elements(names[..i + 1]) == Elements(names[..i]) + {names[i]};
      if Get(r, names[i]) != Nil {
        r := Set(r, names[i], Nil);
        assert r[names[i]] != row[names[i]];
        changed := true;
      }
    }
    assert names[..|names|] == names;
  }

  /** The loop over link names that removes one subject from a row. */
  method UnlinkFields(row: Row, names: seq<Field>, subject: UserId) returns (r: Row, changed: bool)
    ensures r == Unlinked(row, Elements(names), subject)
    ensures changed <==> Linked(row, Elements(names), subject)
  {
    r, changed := row, false;
    for i := 0 to |names|
      invariant r == Unlinked(row, Elements(names[..i]), subject)
      invariant changed <==> Linked(row, Elements(names[..i]), subject)
    {
      assert Elements(names[..i + 1]) == Elements(names[..i]) + {names[i]};
      if Get(r, names[i]) == Ref(subject) {
        r := Set(r, names[i], Nil);
        assert names[i] in Elements(names[..i + 1]) && Get(row, names[i]) == Ref(subject);
        changed := true;
      }
    }
    assert names[..|names|] == names;
  }

  /* ---- The database ---- */

  datatype Tables = Tables(
    users: Table,
    audit: Table,
    events: map<EventId, Event>,
    invites: map<InviteId, Invite>,
    memberships: Table,
    staff: Table,
    exports: Table,
    authorizations: Table,
    consents: Table,
    notices: Table,
    requests: Table)

  /** `value.strip().lower() or None`. */
  function NormalisedEmail(value: Option<string>): Option<string> {
    if value.Some? && Normalised(value.value) != "" then Some(Normalised(value.value)) else None
  }

  function EmailOf(users: Table, subject: UserId): Option<string> {
    if subject in users && Get(users[subject], USER_EMAIL).Str? then Some(Get(users[subject], USER_EMAIL).text) else None
  }

  function SubjectEmail(db: Tables, subject: UserId): Option<string> { NormalisedEmail(EmailOf(db.users, subject)) }

  /* ---- Invites ---- */

  predicate InviteSelected(i: Invite, subject: UserId, email: Option<string>) {
    i.revokedByUserId == Some(subject) || (email.Some? && SqlNormalised(i.email) == email.value)
  }

  function InviteIds(invites: map<InviteId, Invite>, subject: UserId, email: Option<string>): set<InviteId> {
    set k | k in invites && InviteSelected(invites[k], subject, email)
  }

  function ErasedInvites(invites: map<InviteId, Invite>, subject: UserId, email: Option<string>, now: Time)
    : map<InviteId, Invite>
  {
    map k | k in invites :: TreatedInvite(k, invites[k], subject, email, now)
  }

  function TreatedInvite(id: InviteId, i: Invite, subject: UserId, email: Option<string>, now: Time): Invite {
    if InviteSelected(i, subject, email) then ErasedInvite(id, i, subject, email, now) else i
  }

  /* ---- Outbox events ---- */

  predicate PayloadNames(p: Payload, email: string) {
    && p.Object? && EMAIL in p.fields && p.fields[EMAIL].Text? && SqlNormalised(p.fields[EMAIL].text) == email
  }

  predicate EventSelected(e: Event, email: Option<string>, inviteIds: set<InviteId>) {
    || (e.aggregateId.Some? && e.aggregateId.value in inviteIds)
    || (email.Some? && PayloadNames(e.payload, email.value))
  }

  function ErasedEvents(events: map<EventId, Event>, email: Option<string>, inviteIds: set<InviteId>): map<EventId, Event> {
    map k | k in events :: TreatedEvent(events[k], email, inviteIds)
  }

  function TreatedEvent(e: Event, email: Option<string>, inviteIds: set<InviteId>): Event {
    if EventSelected(e, email, inviteIds) then ErasedEvent(e) else e
  }

  /* ---- Audit events ---- */

  /** The rows through which an audit event can concern the subject. */
  datatype AuditSnapshot = AuditSnapshot(
    subject: UserId,
    inviteIds: set<InviteId>,
    membershipIds: set<RowId>,
    requestIds: set<RowId>,
    exportIds: set<RowId>,
    staffIds: set<RowId>)

  function TargetIds(snap: AuditSnapshot, kind: TargetType): set<nat> {
    match kind
    case USER => {snap.subject}
    case PRIVACY_CONSENT => {snap.subject}
    case PRIVACY_NOTICE => {snap.subject}
    case INVITE => snap.inviteIds
    case MEMBERSHIP => snap.membershipIds
    case DATA_SUBJECT_REQUEST => snap.requestIds
    case EXPORT_ARTIFACT => snap.exportIds
    case PLATFORM_STAFF => snap.staffIds
    case OTHER_TARGET(_) => {}
  }

  predicate IsSubjectTarget(r: Row, snap: AuditSnapshot) {
    && Get(r, TARGET_ID).Ref? && Get(r, TARGET_TYPE).Kind?
    && Get(r, TARGET_ID).ref in TargetIds(snap, Get(r, TARGET_TYPE).kind)
  }

  predicate HeldAt(r: Row, now: Time) { Get(r, LEGAL_HOLD_UNTIL).At? && Get(r, LEGAL_HOLD_UNTIL).time > now }

  const AUDIT_CONTEXT: set<Field> := {REASON, METADATA_JSON, IP_ADDRESS, USER_AGENT}

  /* ---- The tables with named fields ---- */

  const STAFF_LINKS: set<Field> := {USER_ID, CREATED_BY_USER_ID}
  const EXPORT_LINKS: set<Field> := {SUBJECT_USER_ID, REQUESTER_USER_ID, REQUESTED_BY_USER_ID, GENERATED_BY_USER_ID}
  const REQUEST_LINKS: set<Field> :=
    {REQUESTER_USER_ID, SUBJECT_USER_ID, REVIEWER_USER_ID, REPRESENTATIVE_VERIFIED_BY_USER_ID}

  const EXPORT_METADATA: set<Field> :=
    {FILENAME, CONTENT_TYPE, SIZE_BYTES, CHECKSUM_SHA256, FAILURE_DETAIL, PROCESSING_TOKEN, PROCESSING_LEASE_EXPIRES_AT}

  const REQUEST_DETAILS: set<Field> :=
    {REQUESTER_NOTE, REPRESENTATIVE_RELATIONSHIP, REPRESENTATIVE_AUTHORITY_NOTE, REPRESENTATIVE_REJECTION_REASON_CODE,
     INTERNAL_NOTE, EXECUTION_FAILURE_DETAIL, IDEMPOTENCY_KEY_HASH, IDEMPOTENCY_FINGERPRINT,
     IDEMPOTENCY_KEY_EXPIRES_AT, EXPORT_ARTIFACT_ID, ERASURE_JOB_ID}

  const USER_NAMES: set<Field> := {FIRST_NAME, LAST_NAME}

  /** An export made for the subject, rather than merely by the subject. */
  predicate Owned(r: Row, subject: UserId) {
    Get(r, SUBJECT_USER_ID) == Ref(subject) || Get(r, REQUESTER_USER_ID) == Ref(subject)
  }

  predicate Retryable(r: Row, subject: UserId) {
    && Owned(r, subject)
    && (Get(r, STORAGE_KEY) != Nil || Get(r, STATUS) == Tagged(QUEUED) || Get(r, STATUS) == Tagged(READY))
  }

  predicate KnownBackend(r: Row) {
    Get(r, STORAGE_BACKEND) == Tagged(LOCAL) || Get(r, STORAGE_BACKEND) == Tagged(S3_COMPATIBLE)
  }

  function ErasedAuthId(subject: UserId): string { "erased-user:" + Decimal(subject) }

  /** What one provider does to one table: which rows it takes and what it makes of each. */
  datatype Job =
    | AuditJob(snap: AuditSnapshot)
    | UserJob(subject: UserId)
    | StaffJob(subject: UserId)
    | ExportJob(subject: UserId)
    | RequestJob(subject: UserId)
    | SourceJob(subject: UserId)

  predicate Selects(job: Job, id: RowId, r: Row) {
    match job
    case AuditJob(snap) => Get(r, ACTOR_USER_ID) == Ref(snap.subject) || IsSubjectTarget(r, snap)
    case UserJob(subject) => id == subject
    case StaffJob(subject) => Linked(r, STAFF_LINKS, subject)
    case ExportJob(subject) => Linked(r, EXPORT_LINKS, subject)
    case RequestJob(subject) => Linked(r, REQUEST_LINKS, subject)
    case SourceJob(subject) => Get(r, SUBJECT_USER_ID) == Ref(subject)
  }

  function MinimisedAudit(r: Row, snap: AuditSnapshot): Row {
    var r1 := if Get(r, ACTOR_USER_ID) == Ref(snap.subject) then Set(r, ACTOR_USER_ID, Nil) else r;
    var r2 := if IsSubjectTarget(r1, snap) then Set(r1, TARGET_ID, Nil) else r1;
    Cleared(r2, AUDIT_CONTEXT)
  }

  function AnonymisedUser(r: Row, subject: UserId): Row {
    var r1 := Set(r, EXTERNAL_AUTH_ID, Str(ErasedAuthId(subject)));
    var r2 := Set(Set(r1, USER_EMAIL, Nil), EMAIL_VERIFIED, Bool(false));
    var r3 := Set(Cleared(r2, USER_NAMES), ONBOARDING_COMPLETED, Bool(false));
    Set(r3, SUSPENDED_REASON, Nil)
  }

  function MinimisedStaff(r: Row, subject: UserId): Row {
    var r1 := if Get(r, CREATED_BY_USER_ID) == Ref(subject) then Set(r, CREATED_BY_USER_ID, Nil) else r;
    if Linked(r, STAFF_LINKS, subject) then Set(r1, SUSPENDED_REASON, Nil) else r1
  }

  function MinimisedExport(r: Row, subject: UserId): Row {
    var r1 := if Retryable(r, subject)
              then Set(Set(r, STATUS, Tagged(CANCELLED)), FAILURE_REASON_CODE, Because(SUBJECT_ERASURE_REQUESTED))
              else r;
    var r2 := Unlinked(r1, EXPORT_LINKS, subject);
    if Owned(r, subject) then Cleared(r2, EXPORT_METADATA) else r2
  }

  function MinimisedRequest(r: Row, subject: UserId): Row {
    var r1 := Unlinked(r, REQUEST_LINKS, subject);
    if Owned(r, subject) then Cleared(r1, REQUEST_DETAILS) else r1
  }

  function RowAfter(job: Job, r: Row): Row {
    match job
    case AuditJob(snap) => MinimisedAudit(r, snap)
    case UserJob(subject) => AnonymisedUser(r, subject)
    case StaffJob(subject) => MinimisedStaff(r, subject)
    case ExportJob(subject) => MinimisedExport(r, subject)
    case RequestJob(subject) => MinimisedRequest(r, subject)
    case SourceJob(_) => Set(r, SOURCE, Nil)
  }

  /** A row as the job leaves it. */
  function Treated(job: Job, id: RowId, r: Row): Row { if Selects(job, id, r) then RowAfter(job, r) else r }

  function After(job: Job, t: Table): Table { map k | k in t :: Treated(job, k, t[k]) }

  function SelectedIds(job: Job, t: Table): set<RowId> { set k | k in t && Selects(job, k, t[k]) }

  /** The rows two versions of a table disagree about. */
  function Changed<R(==)>(before: map<nat, R>, after: map<nat, R>): set<nat> {
    set k | k in before && (k !in after || after[k] != before[k])
  }

  function Snapshot(db: Tables, subject: UserId): AuditSnapshot {
    AuditSnapshot(subject,
                  InviteIds(db.invites, subject, SubjectEmail(db, subject)),
                  SelectedMemberships(db.memberships, subject),
                  SelectedIds(RequestJob(subject), db.requests),
                  SelectedIds(ExportJob(subject), db.exports),
                  SelectedIds(StaffJob(subject), db.staff))
  }

  function SelectedMemberships(memberships: Table, subject: UserId): set<RowId> {
    set k | k in memberships && Get(memberships[k], USER_ID) == Ref(subject)
  }

  /* ---- What the row rewrites mean ---- */

  lemma SnapshotSubject(db: Tables, subject: UserId)
    ensures Snapshot(db, subject).subject == subject
  {}

  /** An audit event keeps no link to the subject and no context; everything else stays. */
  lemma AuditRowMeaning(r: Row, snap: AuditSnapshot, f: Field)
    ensures var after := MinimisedAudit(r, snap);
      && Get(after, ACTOR_USER_ID) != Ref(snap.subject) && !IsSubjectTarget(after, snap)
      && (f in AUDIT_CONTEXT ==> Get(after, f) == Nil)
      && (f !in AUDIT_CONTEXT && f != ACTOR_USER_ID && f != TARGET_ID ==> Get(after, f) == Get(r, f))
  {
    assert ACTOR_USER_ID !in AUDIT_CONTEXT && TARGET_ID !in AUDIT_CONTEXT && TARGET_TYPE !in AUDIT_CONTEXT;
  }

  lemma ExportRowUnlinked(r: Row, subject: UserId)
    ensures !Linked(MinimisedExport(r, subject), EXPORT_LINKS, subject)
  {
    var r1 := if Retryable(r, subject)
              then Set(Set(r, STATUS, Tagged(CANCELLED)), FAILURE_REASON_CODE, Because(SUBJECT_ERASURE_REQUESTED))
              else r;
    var r2 := Unlinked(r1, EXPORT_LINKS, subject);
    assert !Linked(r2, EXPORT_LINKS, subject);
  }

  /** An export row keeps no link to the subject; one with a stored object that was made for the
      subject is cancelled and keeps the key of that object; one the subject merely acted on
      keeps its status and metadata. */
  lemma ExportRowMeaning(r: Row, subject: UserId, f: Field)
    ensures var after := MinimisedExport(r, subject);
      && !Linked(after, EXPORT_LINKS, subject)
      && Get(after, STORAGE_KEY) == Get(r, STORAGE_KEY) && Get(after, STORAGE_BACKEND) == Get(r, STORAGE_BACKEND)
      && Get(after, STATUS) == (if Retryable(r, subject) then Tagged(CANCELLED) else Get(r, STATUS))
      && (Owned(r, subject) && f in EXPORT_METADATA ==> Get(after, f) == Nil)
      && (!Owned(r, subject) && f !in EXPORT_LINKS ==> Get(after, f) == Get(r, f))
  {
    ExportRowUnlinked(r, subject);
    ExportRowKeepsObject(r, subject);
    ExportRowField(r, subject, f);
  }

  lemma ExportRowKeepsObject(r: Row, subject: UserId)
    ensures var after := MinimisedExport(r, subject);
      && Get(after, STORAGE_KEY) == Get(r, STORAGE_KEY) && Get(after, STORAGE_BACKEND) == Get(r, STORAGE_BACKEND)
      && Get(after, STATUS) == (if Retryable(r, subject) then Tagged(CANCELLED) else Get(r, STATUS))
  {}

  lemma ExportRowField(r: Row, subject: UserId, f: Field)
    ensures var after := MinimisedExport(r, subject);
      && (Owned(r, subject) && f in EXPORT_METADATA ==> Get(after, f) == Nil)
      && (!Owned(r, subject) && f !in EXPORT_LINKS ==> Get(after, f) == Get(r, f))
  {}

  /** A request keeps no link to the subject; its own details go when it is by or about the
      subject; its type, status and execution status stay. */
  lemma RequestRowMeaning(r: Row, subject: UserId, f: Field)
    ensures var after := MinimisedRequest(r, subject);
      && !Linked(after, REQUEST_LINKS, subject)
      && (Owned(r, subject) && f in REQUEST_DETAILS ==> Get(after, f) == Nil)
      && (f !in REQUEST_LINKS && (!Owned(r, subject) || f !in REQUEST_DETAILS) ==> Get(after, f) == Get(r, f))
  {}

  /** A staff row keeps neither its creator link nor a reason; the staff member's own id stays. */
  lemma StaffRowMeaning(r: Row, subject: UserId)
    requires Linked(r, STAFF_LINKS, subject)
    ensures var after := MinimisedStaff(r, subject);
      && Get(after, CREATED_BY_USER_ID) != Ref(subject) && Get(after, SUSPENDED_REASON) == Nil
      && Get(after, USER_ID) == Get(r, USER_ID)
  {}

  const PROFILE: set<Field> :=
    {EXTERNAL_AUTH_ID, USER_EMAIL, EMAIL_VERIFIED, FIRST_NAME, LAST_NAME, ONBOARDING_COMPLETED, SUSPENDED_REASON}

  /** A profile keeps nothing personal, and loses nothing else. */
  lemma UserRowMeaning(r: Row, subject: UserId, f: Field)
    ensures Get(AnonymisedUser(r, subject), f)
            == if f == EXTERNAL_AUTH_ID then Str(ErasedAuthId(subject))
               else if f == EMAIL_VERIFIED || f == ONBOARDING_COMPLETED then Bool(false)
               else if f in PROFILE then Nil
               else Get(r, f)
  {}
}
