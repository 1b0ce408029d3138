/** The preview of an erasure, and how it bounds what the erasure then does. */
module ErasurePreview {
  import opened Common
  import opened Records
  import opened Scrubbing
  import opened ErasureTables
  import opened ErasureLaws
  import opened Erasure
  import opened ErasureOrder
  import opened ErasureGuarantees

  function SelectedEvents(events: map<EventId, Event>, email: Option<string>, ids: set<InviteId>): set<EventId> {
    set k | k in events && EventSelected(events[k], email, ids)
  }

  /** The organisations the subject has a membership row in, each counted once. */
  function SubjectOrganisations(memberships: Table, subject: UserId): set<nat> {
    set k | k in SelectedMemberships(memberships, subject) && Get(memberships[k], MEMBER_ORGANISATION_ID).Ref?
      :: Get(memberships[k], MEMBER_ORGANISATION_ID).ref
  }

  /** The number of rows the preview announces under each provider key. */
  function Estimated(key: ResultKey, db: Tables, subject: UserId): nat {
    var email := SubjectEmail(db, subject);
    match key
    case USERS_KEY => 1
    case INVITES_KEY => |InviteIds(db.invites, subject, email)|
    case OUTBOX_KEY => |SelectedEvents(db.events, email, InviteIds(db.invites, subject, email))|
    case AUDIT_KEY => |SelectedIds(AuditJob(Snapshot(db, subject)), db.audit)|
    case MEMBERSHIPS_KEY => |SelectedMemberships(db.memberships, subject)|
    case ORGANISATIONS_KEY => |SubjectOrganisations(db.memberships, subject)|
    case STAFF_KEY => |SelectedIds(StaffJob(subject), db.staff)|
    case REQUESTS_KEY => |SelectedIds(RequestJob(subject), db.requests)|
    case EXPORTS_KEY => |SelectedIds(ExportJob(subject), db.exports)|
    case AUTHORIZATIONS_KEY => |SelectedIds(SourceJob(subject), db.authorizations)|
    case CONSENTS_KEY => |SelectedIds(SourceJob(subject), db.consents)|
    case NOTICES_KEY => |SelectedIds(SourceJob(subject), db.notices)|
  }

  /** Under each key the preview announces the number of rows that concern the subject. */
  lemma EstimatesExactly(key: ResultKey, db: Tables, subject: UserId)
    ensures Estimated(key, db, subject) == match key
      case USERS_KEY => 1
      case INVITES_KEY => |set k | k in db.invites && InviteConcerns(db, subject, k)|
      case OUTBOX_KEY => |set k | k in db.events && EventConcerns(db, subject, db.events[k])|
      case AUDIT_KEY => |set k | k in db.audit && AuditConcerns(db, subject, db.audit[k])|
      case MEMBERSHIPS_KEY => |set k | k in db.memberships && Holds(db.memberships[k], USER_ID, subject)|
      case ORGANISATIONS_KEY =>
        |set k | k in db.memberships && Holds(db.memberships[k], USER_ID, subject) && Get(db.memberships[k], MEMBER_ORGANISATION_ID).Ref?
           :: Get(db.memberships[k], MEMBER_ORGANISATION_ID).ref|
      case STAFF_KEY => |set k | k in db.staff && StaffConcerns(db.staff[k], subject)|
      case REQUESTS_KEY => |set k | k in db.requests && RequestConcerns(db.requests[k], subject)|
      case EXPORTS_KEY => |set k | k in db.exports && ExportConcerns(db.exports[k], subject)|
      case AUTHORIZATIONS_KEY => |set k | k in db.authorizations && Holds(db.authorizations[k], SUBJECT_USER_ID, subject)|
      case CONSENTS_KEY => |set k | k in db.consents && Holds(db.consents[k], SUBJECT_USER_ID, subject)|
      case NOTICES_KEY => |set k | k in db.notices && Holds(db.notices[k], SUBJECT_USER_ID, subject)|
  {
    hide SubjectEmail, InviteIds, Snapshot, InviteConcerns, EventConcerns, EventSelected, AuditConcerns, StaffConcerns,
      RequestConcerns, ExportConcerns;
    var email := SubjectEmail(db, subject);
    match key
    case INVITES_KEY =>
      forall k { InvitesExactly(db, subject, k); }
      assert InviteIds(db.invites, subject, email) == set k | k in db.invites && InviteConcerns(db, subject, k);
    case OUTBOX_KEY =>
      forall e { EventsExactly(db, subject, e); }
      assert SelectedEvents(db.events, email, InviteIds(db.invites, subject, email))
          == set k | k in db.events && EventConcerns(db, subject, db.events[k]);
    case AUDIT_KEY =>
      forall k, r { AuditExactly(db, subject, k, r); }
      assert SelectedIds(AuditJob(Snapshot(db, subject)), db.audit) == set k | k in db.audit && AuditConcerns(db, subject, db.audit[k]);
    case STAFF_KEY =>
      forall k, r { StaffExactly(k, r, subject); }
      assert SelectedIds(StaffJob(subject), db.staff) == set k | k in db.staff && StaffConcerns(db.staff[k], subject);
    case REQUESTS_KEY =>
      forall k, r { RequestsExactly(k, r, subject); }
      assert SelectedIds(RequestJob(subject), db.requests) == set k | k in db.requests && RequestConcerns(db.requests[k], subject);
    case EXPORTS_KEY =>
      forall k, r { ExportsExactly(k, r, subject); }
      assert SelectedIds(ExportJob(subject), db.exports) == set k | k in db.exports && ExportConcerns(db.exports[k], subject);
    case MEMBERSHIPS_KEY =>
      assert SelectedMemberships(db.memberships, subject)
          == set k | k in db.memberships && Holds(db.memberships[k], USER_ID, subject);
    case ORGANISATIONS_KEY =>
      assert SubjectOrganisations(db.memberships, subject)
          == set k | k in db.memberships && Holds(db.memberships[k], USER_ID, subject)
                     && Get(db.memberships[k], MEMBER_ORGANISATION_ID).Ref? :: Get(db.memberships[k], MEMBER_ORGANISATION_ID).ref;
    case AUTHORIZATIONS_KEY => SourcesExactly(db.authorizations, subject);
    case CONSENTS_KEY => SourcesExactly(db.consents, subject);
    case NOTICES_KEY => SourcesExactly(db.notices, subject);
    case _ =>
  }

  lemma SourcesExactly(t: Table, subject: UserId)
    ensures SelectedIds(SourceJob(subject), t) == set k | k in t && Holds(t[k], SUBJECT_USER_ID, subject)
  {}

  /** Only selected rows can change. */
  lemma ChangedWithinSelected(job: Job, t: Table)
    ensures |Changed(t, After(job, t))| <= |SelectedIds(job, t)|
  {
    hide Selects, RowAfter;
    SubsetSize(Changed(t, After(job, t)), SelectedIds(job, t));
  }

  lemma ChangedInvites(t: map<InviteId, Invite>, subject: UserId, email: Option<string>, now: Time)
    ensures |Changed(t, ErasedInvites(t, subject, email, now))| <= |InviteIds(t, subject, email)|
  {
    hide InviteSelected, ErasedInvite;
    SubsetSize(Changed(t, ErasedInvites(t, subject, email, now)), InviteIds(t, subject, email));
  }

  lemma ChangedEvents(t: map<EventId, Event>, email: Option<string>, ids: set<InviteId>)
    ensures |Changed(t, ErasedEvents(t, email, ids))| <= |SelectedEvents(t, email, ids)|
  {
    hide EventSelected, ErasedEvent;
    SubsetSize(Changed(t, ErasedEvents(t, email, ids)), SelectedEvents(t, email, ids));
  }

  lemma OnlyOneUser(t: Table, subject: UserId)
    ensures |Changed(t, After(UserJob(subject), t))| <= 1
  {
    hide AnonymisedUser;
    SubsetSize(Changed(t, After(UserJob(subject), t)), {subject});
  }

  lemma EachReportIsBounded(p: Provider, db: Tables, c: Context, r: ProviderResult)
    requires Describes(c, db) && r in ReportAlone(p, db, c)
    ensures r.affectedRows <= Estimated(r.key, db, c.subject)
  {
    hide After, ErasedInvites, ErasedEvents, Snapshot, InviteIds, SubjectEmail, SelectedIds, SelectedEvents, Changed;
    match p
    case AUDIT => ChangedWithinSelected(AuditJob(Snapshot(db, c.subject)), db.audit);
    case OUTBOX => ChangedEvents(db.events, c.email, c.inviteIds);
    case INVITES => ChangedInvites(db.invites, c.subject, c.email, c.now);
    case STAFF => ChangedWithinSelected(StaffJob(c.subject), db.staff);
    case EXPORTS => ChangedWithinSelected(ExportJob(c.subject), db.exports);
    case GOVERNANCE =>
      ChangedWithinSelected(SourceJob(c.subject), db.authorizations);
      ChangedWithinSelected(SourceJob(c.subject), db.notices);
    case USERS => OnlyOneUser(db.users, c.subject);
    case REQUESTS => ChangedWithinSelected(RequestJob(c.subject), db.requests);
    case _ =>
  }

  lemma {:induction false} ReportComesFrom(db: Tables, c: Context, ps: seq<Provider>, r: ProviderResult) returns (p: Provider)
    requires r in ReportsAlone(db, c, ps)
    ensures p in ps && r in ReportAlone(p, db, c)
    decreases |ps|
  {
    hide ReportAlone;
    if r in ReportAlone(ps[0], db, c) {
      p := ps[0];
    } else {
      p := ReportComesFrom(db, c, ps[1..], r);
    }
  }

  /** Marking the request as processing does not change any estimate. */
  lemma EstimatesSurviveMarking(db: Tables, request: RowId, now: Time, subject: UserId, key: ResultKey)
    requires request in db.requests
    ensures Estimated(key, Started(db, request, now), subject) == Estimated(key, db, subject)
  {
    hide Snapshot, SubjectEmail, InviteIds, SelectedIds, SelectedEvents, SelectedMemberships, SubjectOrganisations;
    MarkingKeepsSelection(db, request, now, subject);
    MarkingKeepsRequests(db, request, now, subject);
  }

  lemma MarkingKeepsRequests(db: Tables, request: RowId, now: Time, subject: UserId)
    requires request in db.requests
    ensures SelectedIds(RequestJob(subject), Started(db, request, now).requests)
            == SelectedIds(RequestJob(subject), db.requests)
  {
    hide Linked, MarkedProcessing;
    MarkingKeepsLinks(db.requests[request], now, subject);
  }

  /** From the same database, a completed erasure reports under every key at most the number of
      rows the preview announced, although later providers work on tables earlier ones rewrote. */
  lemma PreviewBoundsErasure(db: Tables, request: RowId, now: Time, r: ProviderResult)
    requires Executed(db, request, now, ORDER, None).1.Completed?
    requires r in Executed(db, request, now, ORDER, None).1.results
    requires Get(RowOf(db.requests, request), SUBJECT_USER_ID).Ref?
    ensures r.affectedRows <= Estimated(r.key, db, SubjectIn(db, request))
  {
    hide Executed, Mixed, ReportsAlone, Rejection, Estimated, ReportAlone, ContextOf, Describes, MarkedProcessing, MarkedReady;
    CompletedTables(db, request, now);
    CompletedRun(db, request, now);
    var subject := SubjectIn(db, request);
    var start := Started(db, request, now);
    var c := ContextOf(start, request, subject, now);
    StartDescribed(db, request, now);
    var p := ReportComesFrom(start, c, ORDER, r);
    EachReportIsBounded(p, start, c, r);
    ContextSubject(start, request, subject, now);
    EstimatesSurviveMarking(db, request, now, subject, r.key);
  }

  lemma ContextSubject(db: Tables, request: RowId, subject: UserId, now: Time)
    ensures ContextOf(db, request, subject, now).subject == subject
  {}
}
