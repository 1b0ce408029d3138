/** What the invite transactions write into an invite's row, and how long a token lives: whatever
    happens in between, no worker is told to deliver it more than seven days after it was drawn. */
module InviteLifetimes {
  import opened Common
  import opened Records
  import opened TextRules
  import opened OutboxRepository
  import opened InviteTable
  import opened InviteService
  import opened Worker
  import opened Scrubbing
  import opened DeliverySystem
  import opened DeliveryDecisions

  /** The row each invite transaction leaves; times are in microseconds. */
  lemma InviteRowsExactly(s: System, step: Step, i: InviteId)
    requires Enabled(s, step)
    ensures match step
      case CreateInvite(k, row, token, _) =>
        Apply(s, step).db.invites == s.db.invites[k :=
          Invite(row.email, row.organisationId, row.role, InvitePending, Sha256(token), Some(s.now + 604_800_000_000),
                 None, None, s.now, s.now)]
        && Normalised(row.email) == row.email
      case ResendInvite(k, token, _) =>
        && k in s.db.invites && s.db.invites[k].status == InvitePending
        && (s.db.invites[k].expiresAt == None || s.db.invites[k].expiresAt.value > s.now)
        && Apply(s, step).db.invites == s.db.invites[k :=
             s.db.invites[k].(tokenHash := Sha256(token), expiresAt := Some(s.now + 604_800_000_000))]
      case RevokeInvite(k, actor) =>
        && k in s.db.invites && s.db.invites[k].status == InvitePending
        && Apply(s, step).db.invites == s.db.invites[k :=
             s.db.invites[k].(status := InviteRevoked, revokedAt := Some(s.now), revokedByUserId := Some(actor))]
      case AcceptInvite(k) =>
        && k in s.db.invites && s.db.invites[k].status == InvitePending
        && (s.db.invites[k].expiresAt == None || s.db.invites[k].expiresAt.value > s.now)
        && Apply(s, step).db.invites == s.db.invites[k := s.db.invites[k].(status := InviteAccepted)]
      case Grant(_, _, _) =>
        i in s.db.invites ==>
          && i in Apply(s, step).db.invites
          && (|| Apply(s, step).db.invites[i] == s.db.invites[i]
              || (&& s.db.invites[i].status == InvitePending
                  && s.db.invites[i].expiresAt.Some? && s.db.invites[i].expiresAt.value <= s.now
                  && Apply(s, step).db.invites[i] == s.db.invites[i].(status := InviteExpired)))
      case Erase(_, _, _, _) => true
      case RetainInvites(_, _) => true
      case _ => Apply(s, step).db.invites == s.db.invites
  {
    hide InvitePayload, Decide, ParsePayload, ScrubbedDelivery;
    match step
    case CreateInvite(k, row, token, _) => NormalisedIsStored(row.email, row);
    case _ =>
  }

  /** Two rows compete when both are pending, in one organisation, for one address but for case. */
  lemma CompetingExactly(a: Invite, b: Invite)
    ensures Competing(a, b) <==>
      && a.status == InvitePending && b.status == InvitePending && a.organisationId == b.organisationId
      && SameButCase(a.email, b.email)
  {
    hide SameButCase;
    LowerExactly(a.email, b.email);
  }

  /** Owners invite admins and members, admins invite members; both manage what they could have
      sent, and nobody else does either. */
  lemma RolesExactly(actor: Role, role: Role)
    ensures MayInvite(actor, role) <==> (actor, role) in {(OWNER, ADMIN), (OWNER, MEMBER), (ADMIN, MEMBER)}
    ensures role != OWNER ==> (MayManage(actor, role) <==> MayInvite(actor, role))
    ensures MayManage(actor, OWNER) <==> actor != MEMBER
  {}

  lemma NormalisedIsStored(email: string, row: Invite)
    requires row.email == Normalised(email) && email == row.email
    ensures Normalised(row.email) == row.email
  {}

  /** While the invite answers to the token and is pending, it expires at `end`. */
  ghost predicate EndsAt(s: System, i: InviteId, raw: RawToken, end: Time) {
    && raw in s.issued
    && (i in s.db.invites && s.db.invites[i].tokenHash == Sha256(raw) && s.db.invites[i].status == InvitePending
        ==> s.db.invites[i].expiresAt == Some(end))
  }

  lemma StepKeepsEnd(s: System, step: Step, i: InviteId, raw: RawToken, end: Time)
    requires Enabled(s, step) && EndsAt(s, i, raw, end)
    ensures EndsAt(Apply(s, step), i, raw, end)
  {
    hide InvitePayload, Decide, ScrubbedEmail, EndsWith, Normalised, ScrubbedDelivery, ErasedEvent, RetainedEvent, FailedRow, ParsePayload;
  }

  lemma {:induction false} RunKeepsEnd(s: System, run: seq<Step>, i: InviteId, raw: RawToken, end: Time)
    requires IsRun(s, run) && EndsAt(s, i, raw, end)
    ensures EndsAt(Final(s, run), i, raw, end)
    decreases |run|
  {
    hide Enabled, Apply, EndsAt;
    if run != [] {
      StepKeepsEnd(s, run[0], i, raw, end);
      RunKeepsEnd(Apply(s, run[0]), run[1..], i, raw, end);
    }
  }

  /** A worker that is told to deliver a token of an invite is told so less than seven days after
      the token was drawn. */
  lemma TokensLiveSevenDays(
    s: System, publish: Step, run: seq<Step>, i: InviteId, raw: RawToken, e: EventId, id: EventId, w: ClaimToken, enabled: bool)
    requires Enabled(s, publish) && Publishes(publish, i, raw, e) && IsRun(Apply(s, publish), run)
    requires var t := Final(Apply(s, publish), run);
      && w !in t.workers && w in Apply(t, Grant(id, w, enabled)).workers
      && Apply(t, Grant(id, w, enabled)).workers[w].action == Deliver(raw, i)
    ensures Final(Apply(s, publish), run).now < s.now + 604_800_000_000
  {
    hide Granted, Decide, IsRun, Final;
    InviteRowsExactly(s, publish, i);
    StartEnds(s, publish, i, raw, e);
    RunKeepsEnd(Apply(s, publish), run, i, raw, s.now + 604_800_000_000);
    var t := Final(Apply(s, publish), run);
    GrantDoes(t.db, id, w, enabled, t.now);
    if id in t.db.events {
      DecidesExactly(t.db.events[id], t.db.invites, enabled, t.now, raw, i);
    }
  }

  lemma StartEnds(s: System, publish: Step, i: InviteId, raw: RawToken, e: EventId)
    requires Enabled(s, publish) && Publishes(publish, i, raw, e)
    ensures EndsAt(Apply(s, publish), i, raw, s.now + 604_800_000_000)
  {
    hide InvitePayload, Normalised;
  }
}
