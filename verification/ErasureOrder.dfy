/** Why the order of the erasure providers is right: in every order that respects what the
    providers read, each of them does to its own table exactly what it would have done alone on
    the database as it was before the erasure. */
module ErasureOrder {
  import opened Common
  import opened Records
  import opened TextRules
  import opened Scrubbing
  import opened ErasureTables
  import opened Erasure

  /** The context was read from this database. */
  ghost predicate Describes(c: Context, db: Tables) {
    && RequestSubject(db, c) == Ref(c.subject) && c.request in db.requests && c.subject in db.users
    && c.email == SubjectEmail(db, c.subject)
    && c.inviteIds == InviteIds(db.invites, c.subject, c.email)
  }

  /** The database with some of its tables erased, each straight from its original content. */
  ghost function Mixed(db: Tables, c: Context, done: set<Provider>): Tables {
    Tables(
      if USERS in done then After(UserJob(c.subject), db.users) else db.users,
      if AUDIT in done then After(AuditJob(Snapshot(db, c.subject)), db.audit) else db.audit,
      if OUTBOX in done then ErasedEvents(db.events, c.email, c.inviteIds) else db.events,
      if INVITES in done then ErasedInvites(db.invites, c.subject, c.email, c.now) else db.invites,
      db.memberships,
      if STAFF in done then After(StaffJob(c.subject), db.staff) else db.staff,
      if EXPORTS in done then After(ExportJob(c.subject), db.exports) else db.exports,
      if GOVERNANCE in done then After(SourceJob(c.subject), db.authorizations) else db.authorizations,
      db.consents,
      if GOVERNANCE in done then After(SourceJob(c.subject), db.notices) else db.notices,
      if REQUESTS in done then After(RequestJob(c.subject), db.requests) else db.requests)
  }

  /** What must not have run yet: the request has to name its subject for those who look it up
      there, and the audit provider reads the tables its targets are found through. */
  ghost predicate SafeAfter(p: Provider, done: set<Provider>) {
    && p !in done
    && (ReadsSubject(p) ==> REQUESTS !in done)
    && (p.AUDIT? ==> done !! {USERS, INVITES, STAFF, EXPORTS})
  }

  ghost predicate {:induction false} SafeOrder(done: set<Provider>, ps: seq<Provider>)
    decreases |ps|
  {
    ps == [] || (SafeAfter(ps[0], done) && SafeOrder(done + {ps[0]}, ps[1..]))
  }

  /* ---- Reading through earlier rewrites ---- */

  lemma EmailTwice(value: Option<string>)
    ensures NormalisedEmail(NormalisedEmail(value)) == NormalisedEmail(value)
  {
    if value.Some? {
      NormalisedTwice(value.value);
    }
  }

  /** The address searched for is the one read at the start, whether or not the profile has been
      anonymised meanwhile. */
  lemma EmailSurvives(db: Tables, c: Context, done: set<Provider>)
    requires Describes(c, db) && REQUESTS !in done
    ensures SubjectOf(Mixed(db, c, done), c) == c.subject
    ensures EffectiveEmail(Mixed(db, c, done), c) == c.email
  {
    EmailTwice(EmailOf(db.users, c.subject));
    var now := Mixed(db, c, done);
    if c.email.None? && USERS in done {
      UserRowMeaning(db.users[c.subject], c.subject, USER_EMAIL);
      assert Get(now.users[c.subject], USER_EMAIL) == Nil;
    }
  }

  lemma SnapshotSurvives(db: Tables, c: Context, done: set<Provider>)
    requires Describes(c, db) && SafeAfter(AUDIT, done)
    ensures Snapshot(Mixed(db, c, done), c.subject) == Snapshot(db, c.subject)
  {}

  lemma RequestSurvives(db: Tables, c: Context, done: set<Provider>)
    requires Describes(c, db)
    ensures var before, now := RowOf(db.requests, c.request), RowOf(Mixed(db, c, done).requests, c.request);
      Get(now, REQUEST_TYPE) == Get(before, REQUEST_TYPE) && Get(now, STATUS) == Get(before, STATUS)
  {
    hide MinimisedRequest, MinimisedAudit, AnonymisedUser, MinimisedStaff, MinimisedExport, Snapshot, ErasedInvites,
      ErasedEvents, Linked, Owned, SubjectEmail, InviteIds;
    RequestRowMeaning(db.requests[c.request], c.subject, REQUEST_TYPE);
    RequestRowMeaning(db.requests[c.request], c.subject, STATUS);
  }

  /* ---- One provider after others ---- */

  lemma AfterKeepsRows(job: Job, t: Table)
    ensures After(job, t).Keys == t.Keys
  {}

  lemma SameRejection(p: Provider, db: Tables, c: Context, done: set<Provider>)
    requires Describes(c, db) && SafeAfter(p, done)
    ensures Rejection(p, Mixed(db, c, done), c) == Rejection(p, db, c)
  {
    hide After, ErasedInvites, ErasedEvents, Snapshot, Selects, EventSelected, HeldAt, HasObject, KnownBackend,
      EffectiveEmail, SubjectEmail, InviteIds;
    RequestSurvives(db, c, done);
    if ReadsSubject(p) {
      EmailSurvives(db, c, done);
      EmailSurvives(db, c, {});
      NothingDone(db, c);
      AfterKeepsRows(UserJob(c.subject), db.users);
    }
    if p.AUDIT? {
      SnapshotSurvives(db, c, done);
    }
  }

  lemma OwnTableOnly(p: Provider, db: Tables, c: Context, done: set<Provider>)
    requires Describes(c, db) && SafeAfter(p, done)
    ensures Rewritten(p, Mixed(db, c, done), c) == Mixed(db, c, done + {p})
  {
    hide After, ErasedInvites, ErasedEvents, Snapshot, EffectiveEmail, SubjectEmail, InviteIds;
    if ReadsSubject(p) {
      EmailSurvives(db, c, done);
    }
    if p.AUDIT? {
      SnapshotSurvives(db, c, done);
    }
  }

  /** What a provider reports alone on the original database. */
  ghost function ReportAlone(p: Provider, db: Tables, c: Context): seq<ProviderResult> {
    Reports(p, db, Mixed(db, c, {p}))
  }

  lemma SameReport(p: Provider, db: Tables, c: Context, done: set<Provider>)
    requires SafeAfter(p, done)
    ensures Reports(p, Mixed(db, c, done), Mixed(db, c, done + {p})) == ReportAlone(p, db, c)
  {}

  /* ---- Any safe order ---- */

  ghost function {:induction false} FirstFailure(db: Tables, c: Context, ps: seq<Provider>, broken: Option<Provider>)
    : Option<Reason>
    decreases |ps|
  {
    if ps == [] then None
    else if Rejection(ps[0], db, c).Some? then Rejection(ps[0], db, c)
    else if broken == Some(ps[0]) then Some(ORCHESTRATION_FAILED)
    else FirstFailure(db, c, ps[1..], broken)
  }

  ghost function {:induction false} ReportsAlone(db: Tables, c: Context, ps: seq<Provider>): seq<ProviderResult>
    decreases |ps|
  {
    if ps == [] then [] else ReportAlone(ps[0], db, c) + ReportsAlone(db, c, ps[1..])
  }

  lemma {:induction false} RunsIndependently(
    db: Tables, c: Context, done: set<Provider>, ps: seq<Provider>, broken: Option<Provider>)
    requires Describes(c, db) && SafeOrder(done, ps)
    ensures var (after, r) := RunAll(Mixed(db, c, done), c, ps, broken);
      match FirstFailure(db, c, ps, broken)
      case Some(reason) => r == Failure(reason)
      case None => after == Mixed(db, c, done + Elements(ps)) && r == Success(ReportsAlone(db, c, ps))
    decreases |ps|
  {
    hide Rejection, Rewritten, Reports, Mixed, Describes, SafeAfter;
    if ps == [] {
      assert done + Elements(ps) == done;
    } else {
      SameRejection(ps[0], db, c, done);
      OwnTableOnly(ps[0], db, c, done);
      SameReport(ps[0], db, c, done);
      RunsIndependently(db, c, done + {ps[0]}, ps[1..], broken);
      assert done + {ps[0]} + Elements(ps[1..]) == done + Elements(ps) by {
        assert ps == [ps[0]] + ps[1..];
      }
    }
  }

  lemma NothingDone(db: Tables, c: Context)
    ensures Mixed(db, c, {}) == db
  {}

  const EVERYONE: set<Provider> :=
    {AUDIT, OUTBOX, INVITES, MEMBERSHIPS, ORGANISATIONS, STAFF, EXPORTS, GOVERNANCE, USERS, REQUESTS}

  /** The audit provider first and the request provider last is enough. */
  lemma {:induction false} SafeByPosition(o: seq<Provider>, i: nat)
    requires i <= |o| && Distinct(o)
    requires forall k :: 0 <= k < |o| && o[k] == AUDIT ==> k == 0
    requires forall k :: 0 <= k < |o| && o[k] == REQUESTS ==> k == |o| - 1
    ensures SafeOrder(Elements(o[..i]), o[i..])
    decreases |o| - i
  {
    if i < |o| {
      SafeByPosition(o, i + 1);
      assert o[i..][0] == o[i] && o[i..][1..] == o[i + 1..];
      assert Elements(o[..i + 1]) == Elements(o[..i]) + {o[i]} by {
        assert o[..i + 1] == o[..i] + [o[i]];
      }
      forall k | 0 <= k < i ensures o[k] != o[i] && (ReadsSubject(o[i]) ==> o[k] != REQUESTS) {}
      assert SafeAfter(o[i], Elements(o[..i])) by {
        if o[i] == AUDIT { assert i == 0 && Elements(o[..0]) == {}; }
      }
    }
  }

  /** Ten different providers, audit first and requests last, are everyone in a safe order. */
  lemma PositionsAreSafe(o: seq<Provider>)
    requires |o| == 10 && o[0] == AUDIT && o[1] == OUTBOX && o[2] == INVITES && o[3] == MEMBERSHIPS
    requires o[4] == ORGANISATIONS && o[5] == STAFF && o[6] == EXPORTS && o[7] == GOVERNANCE
    requires o[8] == USERS && o[9] == REQUESTS
    ensures SafeOrder({}, o) && Elements(o) == EVERYONE
  {
    hide SafeOrder;
    SafeByPosition(o, 0);
    assert o[..0] == [] && o[0..] == o && Elements(o[..0]) == {};
    forall p ensures p in Elements(o) <==> p in EVERYONE {
      if p in EVERYONE {
        assert exists k :: 0 <= k < 10 && o[k] == p;
      }
    }
  }

  /** The order in the code is safe and leaves nobody out. */
  lemma CodedOrderIsSafe()
    ensures SafeOrder({}, ORDER) && Elements(ORDER) == EVERYONE
  {
    hide SafeOrder, Elements;
    PositionsAreSafe(ORDER);
  }

  /** The coded sequence has the effect of ten independent rewrites of the original database, or
      fails with the first complaint any provider would have had about that database. */
  lemma CodedOrderIsIndependent(db: Tables, c: Context, broken: Option<Provider>)
    requires Describes(c, db)
    ensures var (after, r) := RunAll(db, c, ORDER, broken);
      match FirstFailure(db, c, ORDER, broken)
      case Some(reason) => r == Failure(reason)
      case None => after == Mixed(db, c, EVERYONE) && r == Success(ReportsAlone(db, c, ORDER))
  {
    hide Rejection, Rewritten, Reports, Mixed, Describes, SafeAfter, RunAll, SafeOrder, FirstFailure, ReportsAlone;
    CodedOrderIsSafe();
    NothingDone(db, c);
    RunsIndependently(db, c, {}, ORDER, broken);
    assert {} + Elements(ORDER) == EVERYONE;
  }

  lemma {:induction false} NoFailureMeansNoRejection(db: Tables, c: Context, ps: seq<Provider>)
    ensures FirstFailure(db, c, ps, None).None? <==> forall p :: p in ps ==> Rejection(p, db, c).None?
    decreases |ps|
  {
    if ps != [] {
      NoFailureMeansNoRejection(db, c, ps[1..]);
      assert ps == [ps[0]] + ps[1..];
    }
  }

  /** Any other safe order of the same providers completes exactly when the coded one does, and
      leaves the same tables. */
  lemma SafeOrdersAgree(db: Tables, c: Context, ps: seq<Provider>)
    requires Describes(c, db) && SafeOrder({}, ps) && Elements(ps) == EVERYONE
    ensures RunAll(db, c, ps, None).1.Success? <==> RunAll(db, c, ORDER, None).1.Success?
    ensures RunAll(db, c, ps, None).1.Success? ==> RunAll(db, c, ps, None).0 == RunAll(db, c, ORDER, None).0
  {
    hide Rejection, Rewritten, Reports, Mixed, Describes, SafeAfter, RunAll, SafeOrder, FirstFailure, ReportsAlone;
    CodedOrderIsSafe();
    CodedOrderIsIndependent(db, c, None);
    NothingDone(db, c);
    RunsIndependently(db, c, {}, ps, None);
    assert {} + Elements(ps) == EVERYONE;
    NoFailureMeansNoRejection(db, c, ps);
    NoFailureMeansNoRejection(db, c, ORDER);
    forall p ensures p in ps <==> p in ORDER {
      assert p in Elements(ps) <==> p in ps;
      assert p in Elements(ORDER) <==> p in ORDER;
    }
  }

  /* ---- Orders that are not safe ---- */

  /** Once the requests have been minimised, nobody who looks the subject up through the request
      can run any more. */
  lemma RequestsMustComeLast(p: Provider, db: Tables, c: Context)
    requires Describes(c, db) && ReadsSubject(p)
    requires Get(db.requests[c.request], REQUEST_TYPE) == Tagged(ERASE)
    requires Get(db.requests[c.request], STATUS) == Tagged(APPROVED)
    ensures Rejection(p, Rewritten(REQUESTS, db, c), c) == Some(REQUIRES_SUBJECT_USER)
  {
    hide Snapshot, EffectiveEmail, SubjectEmail, InviteIds, MinimisedRequest, Owned, Rewritten, HoldActive, InFlight;
    var row := db.requests[c.request];
    RequestAfter(db, c);
    RequestRowMeaning(row, c.subject, REQUEST_TYPE);
    RequestRowMeaning(row, c.subject, STATUS);
    UnlinkedField(row, c.subject);
  }

  lemma RequestAfter(db: Tables, c: Context)
    requires Describes(c, db)
    ensures RowOf(Rewritten(REQUESTS, db, c).requests, c.request) == MinimisedRequest(db.requests[c.request], c.subject)
  {
    hide MinimisedRequest, Owned, Snapshot, InviteIds, SubjectEmail;
    assert SUBJECT_USER_ID in REQUEST_LINKS;
    assert Selects(RequestJob(c.subject), c.request, db.requests[c.request]);
  }

  lemma UnlinkedField(row: Row, subject: UserId)
    requires Get(row, SUBJECT_USER_ID) == Ref(subject)
    ensures Get(MinimisedRequest(row, subject), SUBJECT_USER_ID) == Nil
  {
    assert SUBJECT_USER_ID !in REQUEST_DETAILS && SUBJECT_USER_ID in REQUEST_LINKS;
  }

  function TargetKind(p: Provider): TargetType {
    match p
    case INVITES => INVITE
    case STAFF => PLATFORM_STAFF
    case _ => EXPORT_ARTIFACT
  }

  /** An audit event about one row, not by the subject. */
  ghost predicate About(audit: Table, a: RowId, kind: TargetType, k: RowId, subject: UserId) {
    && a in audit && Get(audit[a], TARGET_TYPE) == Kind(kind) && Get(audit[a], TARGET_ID) == Ref(k)
    && Get(audit[a], ACTOR_USER_ID) != Ref(subject)
  }

  /** A row the subject is known by only through links its provider removes. */
  ghost predicate OnlyLinked(p: Provider, db: Tables, c: Context, k: RowId) {
    match p
    case INVITES =>
      && k in db.invites && db.invites[k].revokedByUserId == Some(c.subject)
      && !InviteSelected(db.invites[k].(revokedByUserId := None), c.subject, c.email)
      && !IsInvitee(db.invites[k], c.email)
    case STAFF =>
      k in db.staff && Get(db.staff[k], CREATED_BY_USER_ID) == Ref(c.subject) && Get(db.staff[k], USER_ID) != Ref(c.subject)
    case EXPORTS => k in db.exports && Linked(db.exports[k], EXPORT_LINKS, c.subject)
    case _ => false
  }

  lemma TargetAfterAudit(db: Tables, c: Context, kind: TargetType, a: RowId, k: RowId)
    requires About(db.audit, a, kind, k, SubjectOf(db, c))
    ensures Get(RowOf(Rewritten(AUDIT, db, c).audit, a), TARGET_ID)
            == if k in TargetIds(Snapshot(db, SubjectOf(db, c)), kind) then Nil else Ref(k)
  {
    hide Snapshot, SubjectEmail, InviteIds, SubjectOf, TargetIds;
    var row, snap := db.audit[a], Snapshot(db, SubjectOf(db, c));
    SnapshotSubject(db, SubjectOf(db, c));
    assert IsSubjectTarget(row, snap) <==> k in TargetIds(snap, kind);
    assert TARGET_ID !in AUDIT_CONTEXT;
  }

  lemma KnownBefore(p: Provider, db: Tables, c: Context, k: RowId)
    requires Describes(c, db) && OnlyLinked(p, db, c, k)
    ensures k in TargetIds(Snapshot(db, c.subject), TargetKind(p))
  {
    hide SubjectEmail, SqlNormalised, IsInvitee;
    assert CREATED_BY_USER_ID in STAFF_LINKS;
  }

  lemma UnknownAfter(p: Provider, db: Tables, c: Context, k: RowId)
    requires Describes(c, db) && OnlyLinked(p, db, c, k)
    ensures k !in TargetIds(Snapshot(Rewritten(p, db, c), c.subject), TargetKind(p))
  {
    hide NormalisedEmail, SqlNormalised, IsInvitee, MinimisedExport, MinimisedStaff, IsScrubbedInvite, EffectiveEmail;
    NothingDone(db, c);
    EmailSurvives(db, c, {});
    match p
    case INVITES => assert Rewritten(p, db, c).invites[k] == db.invites[k].(revokedByUserId := None);
    case STAFF => StaffUnlinked(db.staff[k], c.subject);
    case EXPORTS => ExportRowMeaning(db.exports[k], c.subject, STATUS);
  }

  lemma StaffUnlinked(r: Row, subject: UserId)
    requires Get(r, CREATED_BY_USER_ID) == Ref(subject) && Get(r, USER_ID) != Ref(subject)
    ensures !Linked(MinimisedStaff(r, subject), STAFF_LINKS, subject)
  {}

  /** Running the invite, staff or export provider before the audit provider loses every audit
      event about a row the subject is known by only through links which that provider removes. */
  lemma AuditMustComeFirst(p: Provider, db: Tables, c: Context, a: RowId, k: RowId)
    requires p in {INVITES, STAFF, EXPORTS} && Describes(c, db)
    requires OnlyLinked(p, db, c, k) && About(db.audit, a, TargetKind(p), k, c.subject)
    ensures Get(RowOf(Rewritten(AUDIT, db, c).audit, a), TARGET_ID) == Nil
    ensures Get(RowOf(Rewritten(AUDIT, Rewritten(p, db, c), c).audit, a), TARGET_ID) == Ref(k)
  {
    hide Snapshot, Rewritten, SubjectOf, OnlyLinked, TargetIds, SubjectEmail, InviteIds;
    LaterAudit(p, db, c);
    KnownBefore(p, db, c, k);
    UnknownAfter(p, db, c, k);
    TargetAfterAudit(db, c, TargetKind(p), a, k);
    TargetAfterAudit(Rewritten(p, db, c), c, TargetKind(p), a, k);
  }

  lemma LaterAudit(p: Provider, db: Tables, c: Context)
    requires p in {INVITES, STAFF, EXPORTS, USERS} && RequestSubject(db, c) == Ref(c.subject)
    ensures Rewritten(p, db, c).audit == db.audit && SubjectOf(Rewritten(p, db, c), c) == SubjectOf(db, c) == c.subject
  {
    hide Snapshot, EffectiveEmail;
  }

  /** Running the profile provider before the audit provider loses every audit event about an
      invite that is known to be the subject's only through the address. */
  lemma AuditMustPrecedeUsers(db: Tables, c: Context, a: RowId, i: InviteId)
    requires Describes(c, db) && i in db.invites && About(db.audit, a, INVITE, i, c.subject)
    requires InviteSelected(db.invites[i], c.subject, c.email) && db.invites[i].revokedByUserId != Some(c.subject)
    ensures Get(RowOf(Rewritten(AUDIT, db, c).audit, a), TARGET_ID) == Nil
    ensures Get(RowOf(Rewritten(AUDIT, Rewritten(USERS, db, c), c).audit, a), TARGET_ID) == Ref(i)
  {
    hide SqlNormalised, AnonymisedUser, NormalisedEmail, MinimisedAudit;
    var later := Rewritten(USERS, db, c);
    LaterAudit(USERS, db, c);
    UserRowMeaning(db.users[c.subject], c.subject, USER_EMAIL);
    NoAddressNoEmail(later.users, c.subject);
    TargetAfterAudit(db, c, INVITE, a, i);
    TargetAfterAudit(later, c, INVITE, a, i);
  }

  lemma NoAddressNoEmail(users: Table, subject: UserId)
    requires subject in users && Get(users[subject], USER_EMAIL) == Nil
    ensures NormalisedEmail(EmailOf(users, subject)) == None
  {}
}
