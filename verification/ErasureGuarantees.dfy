/** What a finished erasure guarantees: a completed one leaves no covered link to the subject, a
    failed one leaves nothing but its failure, and running a finished one again does nothing. */
module ErasureGuarantees {
  import opened Common
  import opened Records
  import opened TextRules
  import opened Scrubbing
  import opened ErasureTables
  import opened Erasure
  import opened ErasureOrder

  /** The database once the request is marked as processing, which is what the providers see. */
  ghost function Started(db: Tables, request: RowId, now: Time): Tables {
    WithRequest(db, request, MarkedProcessing(RowOf(db.requests, request), now))
  }

  ghost function SubjectIn(db: Tables, request: RowId): UserId
    requires Get(RowOf(db.requests, request), SUBJECT_USER_ID).Ref?
  {
    Get(RowOf(db.requests, request), SUBJECT_USER_ID).ref
  }

  /* ---- Failed and repeated runs ---- */

  /** A failed run, in any order of providers and wherever it failed, changes nothing but the
      execution fields of its own request. */
  lemma FailedRunRestoresTables(db: Tables, request: RowId, now: Time, order: seq<Provider>, broken: Option<Provider>, f: Field)
    requires Executed(db, request, now, order, broken).1.FailedRun?
    ensures var (after, outcome) := Executed(db, request, now, order, broken);
      && after == db.(requests := after.requests)
      && after.requests.Keys == db.requests.Keys && request in db.requests
      && (forall k :: k in db.requests && k != request ==> after.requests[k] == db.requests[k])
      && (f !in EXECUTION_FIELDS ==> Get(after.requests[request], f) == Get(db.requests[request], f))
      && Get(after.requests[request], EXECUTION_STATUS) == Tagged(FAILED_RUN)
      && Get(after.requests[request], EXECUTION_FAILURE_REASON_CODE) == Because(outcome.reason)
  {
    hide RunProviders;
  }

  /** A refused run changes nothing at all. */
  lemma RefusedRunChangesNothing(db: Tables, request: RowId, now: Time, order: seq<Provider>, broken: Option<Provider>)
    ensures var (after, outcome) := Executed(db, request, now, order, broken);
      (outcome.Rejected? || outcome.AlreadyCompleted?) ==> after == db
  {
    hide RunProviders;
  }

  /* ---- Completed runs ---- */

  lemma StartDescribed(db: Tables, request: RowId, now: Time)
    requires Refused(db, request).None? && SubjectIn(db, request) in db.users
    ensures var start := Started(db, request, now);
      Describes(ContextOf(start, request, SubjectIn(db, request), now), start)
  {
    hide SubjectEmail, InviteIds;
  }

  /** A run completes exactly when no provider would have objected to the database as it was; it
      then leaves every table rewritten straight from its original content. */
  lemma CompletedRun(db: Tables, request: RowId, now: Time)
    requires Refused(db, request).None?
    ensures var start := Started(db, request, now);
      var subject := SubjectIn(db, request);
      var c := ContextOf(start, request, subject, now);
      var (after, outcome) := Executed(db, request, now, ORDER, None);
      && (outcome.Completed? <==> subject in db.users && forall p :: p in EVERYONE ==> Rejection(p, start, c).None?)
      && (outcome.Completed? ==>
          var mixed := Mixed(start, c, EVERYONE);
          && after == WithRequest(mixed, request, MarkedReady(RowOf(mixed.requests, request), now))
          && outcome.results == ReportsAlone(start, c, ORDER))
  {
    hide RunAll, Rejection, Mixed, ReportsAlone, FirstFailure, Describes, ContextOf, MarkedProcessing, MarkedReady, MarkedFailed;
    var start, subject := Started(db, request, now), SubjectIn(db, request);
    var c := ContextOf(start, request, subject, now);
    if subject in db.users {
      StartDescribed(db, request, now);
      RunFrom(start, c);
    }
  }

  lemma RunFrom(db: Tables, c: Context)
    requires Describes(c, db)
    ensures var (after, r) := RunAll(db, c, ORDER, None);
      && (r.Success? <==> forall p :: p in EVERYONE ==> Rejection(p, db, c).None?)
      && (r.Success? ==> after == Mixed(db, c, EVERYONE) && r.value == ReportsAlone(db, c, ORDER))
  {
    hide RunAll, Rejection, Mixed, ReportsAlone, FirstFailure, Describes;
    CodedOrderIsIndependent(db, c, None);
    NoFailureMeansNoRejection(db, c, ORDER);
    EveryoneIsInOrder();
  }

  /** A run that was allowed to start fails exactly when the subject has no row, some provider
      objects to the database as it was, or a flush breaks before that. It reports the first such
      reason, marks its own request, and leaves everything else as it was. */
  lemma FailsExactlyWhen(db: Tables, request: RowId, now: Time, broken: Option<Provider>, f: Field)
    requires Refused(db, request).None?
    ensures var start := Started(db, request, now);
      var subject := SubjectIn(db, request);
      var problem := if subject !in db.users then Some(SUBJECT_NOT_FOUND)
                     else FirstFailure(start, ContextOf(start, request, subject, now), ORDER, broken);
      var (after, outcome) := Executed(db, request, now, ORDER, broken);
      && (outcome.FailedRun? <==> problem.Some?)
      && (problem.Some? ==>
          && outcome.reason == problem.value
          && after == db.(requests := after.requests) && after.requests.Keys == db.requests.Keys
          && (forall k :: k in db.requests && k != request ==> after.requests[k] == db.requests[k])
          && (f !in EXECUTION_FIELDS ==> Get(after.requests[request], f) == Get(db.requests[request], f))
          && Get(after.requests[request], EXECUTION_STATUS) == Tagged(FAILED_RUN)
          && Get(after.requests[request], EXECUTION_FAILURE_REASON_CODE) == Because(problem.value))
  {
    hide RunAll, Rejection, Mixed, ReportsAlone, FirstFailure, Describes, ContextOf, MarkedProcessing, MarkedReady, MarkedFailed;
    var start, subject := Started(db, request, now), SubjectIn(db, request);
    if subject in db.users {
      StartDescribed(db, request, now);
      CodedOrderIsIndependent(start, ContextOf(start, request, subject, now), broken);
    }
    if Executed(db, request, now, ORDER, broken).1.FailedRun? {
      FailedRunRestoresTables(db, request, now, ORDER, broken, f);
    }
  }

  lemma EveryoneIsInOrder()
    ensures forall p :: p in EVERYONE <==> p in ORDER
  {
    CodedOrderIsSafe();
    forall p ensures p in EVERYONE <==> p in ORDER {
      assert p in Elements(ORDER) <==> p in ORDER;
    }
  }

  /** Marking the request does not change who is looked for. */
  lemma MarkingKeepsSelection(db: Tables, request: RowId, now: Time, subject: UserId)
    requires request in db.requests
    ensures Snapshot(Started(db, request, now), subject) == Snapshot(db, subject)
    ensures SubjectEmail(Started(db, request, now), subject) == SubjectEmail(db, subject)
  {
    hide InviteIds;
    var start := Started(db, request, now);
    MarkingKeepsLinks(db.requests[request], now, subject);
    assert SelectedIds(RequestJob(subject), start.requests) == SelectedIds(RequestJob(subject), db.requests);
  }

  lemma MarkingKeepsLinks(r: Row, now: Time, subject: UserId)
    ensures Linked(MarkedProcessing(r, now), REQUEST_LINKS, subject) == Linked(r, REQUEST_LINKS, subject)
    ensures Linked(MarkedReady(r, now), REQUEST_LINKS, subject) == Linked(r, REQUEST_LINKS, subject)
  {
    forall f | f in REQUEST_LINKS
      ensures Get(MarkedProcessing(r, now), f) == Get(r, f) && Get(MarkedReady(r, now), f) == Get(r, f)
    {}
  }

  /** The final database, in terms of the original one. */
  lemma CompletedTables(db: Tables, request: RowId, now: Time)
    requires Executed(db, request, now, ORDER, None).1.Completed?
    ensures Refused(db, request).None? && SubjectIn(db, request) in db.users
    ensures var after := Executed(db, request, now, ORDER, None).0;
      var subject := SubjectIn(db, request);
      var email := SubjectEmail(db, subject);
      var start := Started(db, request, now);
      && after.audit == After(AuditJob(Snapshot(db, subject)), db.audit)
      && after.events == ErasedEvents(db.events, email, InviteIds(db.invites, subject, email))
      && after.invites == ErasedInvites(db.invites, subject, email, now)
      && after.staff == After(StaffJob(subject), db.staff)
      && after.exports == After(ExportJob(subject), db.exports)
      && after.users == After(UserJob(subject), db.users)
      && after.requests == (var t := After(RequestJob(subject), start.requests); t[request := MarkedReady(RowOf(t, request), now)])
      && after.memberships == db.memberships && after.consents == db.consents
      && after.authorizations == After(SourceJob(subject), db.authorizations)
      && after.notices == After(SourceJob(subject), db.notices)
  {
    hide After, ErasedEvents, ErasedInvites, Snapshot, SubjectEmail, InviteIds, Executed, ReportsAlone, Rejection, Mixed,
      MarkedReady, MarkedProcessing;
    CompletedOnlyIfAccepted(db, request, now);
    var subject := SubjectIn(db, request);
    CompletedRun(db, request, now);
    MarkingKeepsSelection(db, request, now, subject);
    var start := Started(db, request, now);
    AllMixed(start, ContextOf(start, request, subject, now));
  }

  lemma CompletedOnlyIfAccepted(db: Tables, request: RowId, now: Time)
    requires Executed(db, request, now, ORDER, None).1.Completed?
    ensures Refused(db, request).None?
  {
    hide RunProviders;
  }

  lemma AllMixed(db: Tables, c: Context)
    ensures Mixed(db, c, EVERYONE) == Tables(
      After(UserJob(c.subject), db.users), After(AuditJob(Snapshot(db, c.subject)), db.audit),
      ErasedEvents(db.events, c.email, c.inviteIds), ErasedInvites(db.invites, c.subject, c.email, c.now),
      db.memberships, After(StaffJob(c.subject), db.staff), After(ExportJob(c.subject), db.exports),
      After(SourceJob(c.subject), db.authorizations), db.consents, After(SourceJob(c.subject), db.notices),
      After(RequestJob(c.subject), db.requests))
  {
    hide After, ErasedEvents, ErasedInvites, Snapshot;
  }

  /* ---- Addresses ---- */

  predicate AddressedTo(i: Invite, email: string) { SqlNormalised(i.email) == email }

  /** An address the subject's profile can hold once normalised. */
  ghost predicate IsNormalised(email: string) { email != "" && Normalised(email) == email && Strip(email) == email }

  /** An invite found by the subject's address loses it, except when it carried a tombstone
      already or its new tombstone happens to be the very address of the subject. */
  lemma InviteAddressGoneExactlyWhen(k: InviteId, i: Invite, subject: UserId, email: string, now: Time)
    requires IsNormalised(email)
    ensures AddressedTo(TreatedInvite(k, i, subject, Some(email), now), email)
            <==> if InviteSelected(i, subject, Some(email)) && IsInvitee(i, Some(email)) && !IsScrubbedInvite(i)
                 then ScrubbedEmail(k) == email
                 else AddressedTo(i, email) && IsScrubbedInvite(i)
  {
    hide ScrubbedEmail, IsScrubbedInvite, Normalised, SqlNormalised;
    TombstoneIsPlain(k);
    PlainIsNormal(ScrubbedEmail(k));
    if AddressedTo(i, email) {
      QueryMatchIsServiceMatch(i.email, email);
    }
  }

  /** The same for the provider's own notion of the address, over every invite: it keeps an
      address the provider would recognise exactly when the query does not find the row and the
      subject did not revoke it, when it carried a tombstone already, or when its new tombstone
      is the very address. */
  lemma ProviderAddressLeftExactlyWhen(k: InviteId, i: Invite, subject: UserId, email: string, now: Time)
    requires IsNormalised(email)
    ensures IsInvitee(TreatedInvite(k, i, subject, Some(email), now), Some(email))
            <==> && IsInvitee(i, Some(email))
                 && (|| (SqlNormalised(i.email) != email && i.revokedByUserId != Some(subject))
                     || IsScrubbedInvite(i)
                     || ScrubbedEmail(k) == email)
  {
    hide ScrubbedEmail, IsScrubbedInvite, Normalised, SqlNormalised;
    TombstoneIsPlain(k);
    PlainIsNormal(ScrubbedEmail(k));
  }

  /** An address in the form in which the services store it. */
  predicate StoredNormalised(i: Invite) { Normalised(i.email) == i.email }

  /** On stored addresses the query and the provider agree, whatever was typed in. */
  lemma StoredAddressesAreFound(i: Invite, email: string)
    requires StoredNormalised(i)
    ensures SqlNormalised(i.email) == i.email
    ensures AddressedTo(i, email) <==> IsInvitee(i, Some(email))
  {
    hide Normalised, SqlNormalised;
    NormalisedIsSqlNormal(i.email);
  }

  lemma {:induction false} TrimLeftKeepsSuffix(s: string, suffix: string, space: char -> bool)
    requires EndsWith(s, suffix) && suffix != [] && !space(suffix[0])
    ensures EndsWith(TrimLeft(s, space), suffix)
    decreases |s|
  {
    if space(s[0]) {
      assert s[|s| - |suffix|] == suffix[0];
      assert s[1..][|s[1..]| - |suffix|..] == s[|s| - |suffix|..];
      TrimLeftKeepsSuffix(s[1..], suffix, space);
    }
  }

  lemma NormalisedKeepsSuffix(s: string, suffix: string)
    requires EndsWith(s, suffix) && suffix != "" && Plain(suffix)
    ensures EndsWith(SqlNormalised(s), suffix)
  {
    TrimKeepsSuffix(s, suffix);
    LowerKeepsSuffix(Trim(s), suffix);
  }

  lemma TrimKeepsSuffix(s: string, suffix: string)
    requires EndsWith(s, suffix) && suffix != "" && Plain(suffix)
    ensures EndsWith(Trim(s), suffix)
  {
    var blank := (c: char) => c == ' ';
    assert !IsSpace(suffix[0]) && !IsSpace(suffix[|suffix| - 1]);
    TrimLeftKeepsSuffix(s, suffix, blank);
    var left := TrimLeft(s, blank);
    var n := |left| - |suffix|;
    assert left[|left| - 1] == left[n..][|suffix| - 1];
    assert TrimRight(left, blank) == left;
  }

  lemma LowerKeepsSuffix(s: string, suffix: string)
    requires EndsWith(s, suffix) && Plain(suffix)
    ensures EndsWith(Lower(s), suffix)
  {
    var n := |s| - |suffix|;
    forall i | 0 <= i < |suffix| ensures Lower(s)[n..][i] == suffix[i] {
      assert s[n..][i] == s[n + i] && suffix[i] == s[n..][i];
    }
    assert Lower(s)[n..] == suffix;
  }

  lemma DomainIsPlain()
    ensures Plain(TOMBSTONE_DOMAIN)
  {}

  /** Which invites a completed erasure leaves under the subject's address, as the provider
      compares addresses, read off the database before it. */
  lemma CompletedRunLeavesAddressExactlyWhen(db: Tables, request: RowId, now: Time, email: string, k: InviteId)
    requires Executed(db, request, now, ORDER, None).1.Completed?
    requires Get(RowOf(db.requests, request), SUBJECT_USER_ID).Ref?
    requires SubjectEmail(db, SubjectIn(db, request)) == Some(email) && k in db.invites
    ensures k in Executed(db, request, now, ORDER, None).0.invites
    ensures IsInvitee(Executed(db, request, now, ORDER, None).0.invites[k], Some(email))
            <==> && IsInvitee(db.invites[k], Some(email))
                 && (|| (SqlNormalised(db.invites[k].email) != email
                         && db.invites[k].revokedByUserId != Some(SubjectIn(db, request)))
                     || IsScrubbedInvite(db.invites[k])
                     || ScrubbedEmail(k) == email)
  {
    hide Executed, Snapshot, SubjectEmail, After, TreatedInvite, InviteIds, IsInvitee, SqlNormalised, ScrubbedEmail;
    CompletedTables(db, request, now);
    SubjectEmailIsNormalised(db, SubjectIn(db, request), email);
    ProviderAddressLeftExactlyWhen(k, db.invites[k], SubjectIn(db, request), email, now);
  }

  /** For a subject whose own address is not a tombstone, a completed erasure leaves no invite
      under that address: neither as queries compare addresses nor, for addresses in stored form,
      as the provider does. No outbox payload names it either. */
  lemma CompletedRunForgetsAddress(db: Tables, request: RowId, now: Time, email: string)
    requires Executed(db, request, now, ORDER, None).1.Completed?
    requires Get(RowOf(db.requests, request), SUBJECT_USER_ID).Ref?
    requires SubjectEmail(db, SubjectIn(db, request)) == Some(email) && !EndsWith(email, TOMBSTONE_DOMAIN)
    ensures var after := Executed(db, request, now, ORDER, None).0;
      && after.invites.Keys == db.invites.Keys
      && (forall k :: k in after.invites ==> !AddressedTo(after.invites[k], email))
      && (forall k :: k in after.invites && StoredNormalised(db.invites[k]) ==> !IsInvitee(after.invites[k], Some(email)))
      && (forall k :: k in after.events ==> !PayloadNames(after.events[k].payload, email))
  {
    hide Executed, Snapshot, SubjectEmail, After, AddressedTo, TreatedInvite, InviteIds, TreatedEvent, PayloadNames,
      IsInvitee, StoredNormalised, IsScrubbedInvite, SqlNormalised, EndsWith;
    CompletedTables(db, request, now);
    var after, subject := Executed(db, request, now, ORDER, None).0, SubjectIn(db, request);
    SubjectEmailIsNormalised(db, subject, email);
    forall k | k in after.invites
      ensures !AddressedTo(after.invites[k], email)
      ensures StoredNormalised(db.invites[k]) ==> !IsInvitee(after.invites[k], Some(email))
    {
      AddressForgotten(k, db.invites[k], subject, email, now);
    }
    forall k | k in after.events ensures !PayloadNames(after.events[k].payload, email) {
      EventForgetsAddress(db.events[k], email, InviteIds(db.invites, subject, Some(email)));
    }
  }

  lemma AddressForgotten(k: InviteId, i: Invite, subject: UserId, email: string, now: Time)
    requires IsNormalised(email) && !EndsWith(email, TOMBSTONE_DOMAIN)
    ensures var after := TreatedInvite(k, i, subject, Some(email), now);
      !AddressedTo(after, email) && (StoredNormalised(i) ==> !IsInvitee(after, Some(email)))
  {
    hide TreatedInvite, IsInvitee, StoredNormalised, IsScrubbedInvite, SqlNormalised, EndsWith, ScrubbedEmail;
    InviteAddressGoneExactlyWhen(k, i, subject, email, now);
    ProviderAddressLeftExactlyWhen(k, i, subject, email, now);
    TombstoneInDomain(k);
    if AddressedTo(i, email) && IsScrubbedInvite(i) {
      DomainFollowsAddress(i, email);
    }
    if StoredNormalised(i) {
      StoredAddressesAreFound(i, email);
    }
  }

  lemma TombstoneInDomain(k: InviteId)
    ensures EndsWith(ScrubbedEmail(k), TOMBSTONE_DOMAIN)
  {}

  lemma DomainFollowsAddress(i: Invite, email: string)
    requires AddressedTo(i, email) && IsScrubbedInvite(i)
    ensures EndsWith(email, TOMBSTONE_DOMAIN)
  {
    DomainIsPlain();
    hide SqlNormalised, EndsWith, Plain;
    NormalisedKeepsSuffix(i.email, TOMBSTONE_DOMAIN);
  }

  lemma SubjectEmailIsNormalised(db: Tables, subject: UserId, email: string)
    requires SubjectEmail(db, subject) == Some(email)
    ensures IsNormalised(email)
  {
    var raw := EmailOf(db.users, subject).value;
    NormalisedTwice(raw);
    var t := Strip(raw);
    StripHasNoOuterSpace(raw);
    LowerKeepsSpace(t[0]);
    LowerKeepsSpace(t[|t| - 1]);
    StripFixpoint(email);
  }

  /** Every event about the subject keeps only what identifies nobody, and is never delivered. */
  lemma ScrubbedEventMeaning(e: Event, key: PayloadKey)
    ensures var after := ErasedEvent(e);
      && after.payload.Object? && !after.status.PENDING?
      && (key in after.payload.fields ==>
            key in SAFE_KEYS || key == SENSITIVE_PAYLOAD_SCRUBBED || key == PRIVACY_ERASURE_SCRUBBED)
      && (after.lastError.Some? ==> after.lastError.value == ERASURE_ERROR)
      && (e.status.PENDING? ==> after.status.FAILED? && after.lockedAt.None? && after.nextAttemptAt.None?)
      && (!e.status.PENDING? ==> after.status == e.status)
      && after.attempts == e.attempts && after.aggregateId == e.aggregateId
  {}

  lemma EventForgetsAddress(e: Event, email: string, ids: set<InviteId>)
    ensures !PayloadNames(TreatedEvent(e, Some(email), ids).payload, email)
  {
    hide ErasedEvent, SqlNormalised;
    assert EMAIL !in SAFE_KEYS;
    ScrubbedEventMeaning(e, EMAIL);
  }

  lemma NoneInFlight(db: Tables, c: Context)
    requires Describes(c, db) && Rejection(OUTBOX, db, c).None?
    ensures !InFlight(db.events, c.email, c.inviteIds)
  {
    hide InFlight, SubjectEmail, InviteIds, Snapshot, Mixed, HoldActive, ExportInProgress, UnknownBackend, EffectiveEmail,
      SubjectOf;
    NothingDone(db, c);
    EmailSurvives(db, c, {});
  }

  /** After a completed erasure every event about an invite of the subject, found through the
      invite or through the address, is finished and keeps only keys that identify nobody. */
  lemma CompletedRunSilencesEvents(db: Tables, request: RowId, now: Time, k: EventId, key: PayloadKey)
    requires Executed(db, request, now, ORDER, None).1.Completed?
    requires Get(RowOf(db.requests, request), SUBJECT_USER_ID).Ref? && k in db.events
    requires var email := SubjectEmail(db, SubjectIn(db, request));
      EventSelected(db.events[k], email, InviteIds(db.invites, SubjectIn(db, request), email))
    ensures k in Executed(db, request, now, ORDER, None).0.events
    ensures var e := Executed(db, request, now, ORDER, None).0.events[k];
      && Terminal(e) && e.payload.Object?
      && (key in e.payload.fields ==>
            key in SAFE_KEYS || key == SENSITIVE_PAYLOAD_SCRUBBED || key == PRIVACY_ERASURE_SCRUBBED)
  {
    hide Executed, Snapshot, SubjectEmail, After, InviteIds, EventSelected, ErasedEvent, Rejection, Mixed, ReportsAlone,
      MarkedProcessing, MarkedReady, Describes;
    CompletedTables(db, request, now);
    CompletedRun(db, request, now);
    var subject := SubjectIn(db, request);
    var start := Started(db, request, now);
    StartDescribed(db, request, now);
    MarkingKeepsSelection(db, request, now, subject);
    NoneInFlight(start, ContextOf(start, request, subject, now));
    ScrubbedEventMeaning(db.events[k], key);
  }

  /** The one way an address survives: an invite that already carries a tombstone, erased for a
      subject who registered that tombstone as an address. */
  lemma TombstoneAddressSurvives(k: InviteId, i: Invite, subject: UserId, now: Time)
    requires i.email == ScrubbedEmail(k) && IsScrubbedInvite(i)
    ensures IsNormalised(ScrubbedEmail(k))
    ensures AddressedTo(TreatedInvite(k, i, subject, Some(ScrubbedEmail(k)), now), ScrubbedEmail(k))
  {
    hide ScrubbedEmail, IsScrubbedInvite, Normalised, SqlNormalised, Strip;
    TombstoneIsPlain(k);
    TombstoneNotEmpty(k);
    PlainIsNormal(ScrubbedEmail(k));
    InviteAddressGoneExactlyWhen(k, i, subject, ScrubbedEmail(k), now);
  }

  lemma TombstoneNotEmpty(k: InviteId)
    ensures ScrubbedEmail(k) != "" && Strip(ScrubbedEmail(k)) == ScrubbedEmail(k)
  {
    hide ScrubbedEmail, Strip, IsSpace;
    TombstoneIsPlain(k);
    assert EndsWith(ScrubbedEmail(k), TOMBSTONE_DOMAIN);
    StripFixpoint(ScrubbedEmail(k));
  }

  lemma TabbedText(s: string, tab: char, letter: char)
    requires s == [tab, letter] && IsSpace(tab) && tab != ' ' && !IsSpace(letter)
    ensures Strip(s) == [letter] && Trim(s) == s
  {
    assert s[1..] == [letter];
    assert TrimLeft(s[1..], IsSpace) == [letter];
    assert TrimLeft(s, IsSpace) == [letter];
  }

  /** An input for the first way: an address with a tab in front of it, which SQL does not trim.
      The services store no such address. */
  lemma TabbedAddressIsMissed(k: InviteId, i: Invite, subject: UserId, letter: char, now: Time)
    requires i.email == ['\t', letter] && !IsSpace(letter) && LowerChar(letter) == letter
    requires i.revokedByUserId != Some(subject)
    ensures IsInvitee(i, Some([letter])) && TreatedInvite(k, i, subject, Some([letter]), now) == i
  {
    hide Strip, Trim, ErasedInvite, TreatedInvite, IsInvitee;
    TabbedText(i.email, '\t', letter);
    var email := [letter];
    assert Lower(email) == email;
    MissedByQuery(k, i, subject, email, now);
  }

  lemma MissedByQuery(k: InviteId, i: Invite, subject: UserId, email: string, now: Time)
    requires Strip(i.email) == email && Trim(i.email) == i.email && |i.email| != |email|
    requires Lower(email) == email && i.revokedByUserId != Some(subject)
    ensures IsInvitee(i, Some(email)) && TreatedInvite(k, i, subject, Some(email), now) == i
  {
    hide Strip, Trim, ErasedInvite;
  }

  /* ---- Running again ---- */

  /** Running a completed erasure again is recognised and changes nothing. */
  lemma RerunChangesNothing(db: Tables, request: RowId, now: Time, later: Time, broken: Option<Provider>)
    requires Executed(db, request, now, ORDER, None).1.Completed?
    ensures var after := Executed(db, request, now, ORDER, None).0;
      Executed(after, request, later, ORDER, broken) == (after, AlreadyCompleted)
  {
    hide Executed, Treated, MarkedReady, MarkedProcessing, Snapshot, InviteIds, SubjectEmail, ErasedEvents, ErasedInvites;
    CompletedTables(db, request, now);
    var after, subject := Executed(db, request, now, ORDER, None).0, SubjectIn(db, request);
    var row := Started(db, request, now).requests[request];
    TypeSurvives(row, subject, request, now);
    assert After(RequestJob(subject), Started(db, request, now).requests)[request] == Treated(RequestJob(subject), request, row);
    TypeOfStarted(db, request, now);
    ReadyIsCompleted(after, request, later, broken);
  }

  lemma TypeOfStarted(db: Tables, request: RowId, now: Time)
    requires Refused(db, request).None?
    ensures Get(Started(db, request, now).requests[request], REQUEST_TYPE) == Tagged(ERASE)
  {}

  lemma TypeSurvives(row: Row, subject: UserId, request: RowId, now: Time)
    ensures var ready := MarkedReady(Treated(RequestJob(subject), request, row), now);
      Get(ready, REQUEST_TYPE) == Get(row, REQUEST_TYPE) && Get(ready, EXECUTION_STATUS) == Tagged(READY)
  {
    hide MinimisedRequest, Linked, Owned;
    RequestRowMeaning(row, subject, REQUEST_TYPE);
  }

  lemma ReadyIsCompleted(db: Tables, request: RowId, now: Time, broken: Option<Provider>)
    requires request in db.requests && Get(db.requests[request], REQUEST_TYPE) == Tagged(ERASE)
    requires Get(db.requests[request], EXECUTION_STATUS) == Tagged(READY)
    ensures Executed(db, request, now, ORDER, broken) == (db, AlreadyCompleted)
  {
    hide RunProviders;
  }
}
