/** What a worker decides, spelled out from the columns of the event and of the invite, and what
    that means for the events the services publish. */
module DeliveryDecisions {
  import opened Common
  import opened Records
  import opened OutboxRepository
  import opened InviteTable
  import opened InviteService
  import opened Worker
  import opened Scrubbing
  import opened DeliverySystem
  import opened TextRules

  /* ---- One decision ---- */

  /** A member that is missing or null. */
  ghost predicate Lacks(f: map<PayloadKey, PayloadValue>, k: PayloadKey) { k !in f || f[k] == Null }

  ghost predicate HasInk(t: string) { exists i :: 0 <= i < |t| && !IsSpace(t[i]) }

  /** A payload the schema accepts: an invite id, a ciphertext that is not blank, and optional
      members of the right type and among the named values. */
  ghost predicate Acceptable(p: Payload) {
    && p.Object?
    && var f := p.fields;
       && INVITE_ID in f && f[INVITE_ID].Id?
       && ENCRYPTED_RAW_TOKEN in f
       && (|| (f[ENCRYPTED_RAW_TOKEN].Cipher? && f[ENCRYPTED_RAW_TOKEN].cipher.Encrypted?)
           || (f[ENCRYPTED_RAW_TOKEN].Cipher? && f[ENCRYPTED_RAW_TOKEN].cipher.Undecryptable?
               && HasInk(f[ENCRYPTED_RAW_TOKEN].cipher.text))
           || (f[ENCRYPTED_RAW_TOKEN].Text? && HasInk(f[ENCRYPTED_RAW_TOKEN].text)))
       && (Lacks(f, ORGANISATION_ID) || f[ORGANISATION_ID].Id?)
       && (Lacks(f, EMAIL) || f[EMAIL].Text?)
       && (Lacks(f, PURPOSE) || f[PURPOSE] == Text("created") || f[PURPOSE] == Text("resent"))
       && (Lacks(f, ROLE) || f[ROLE] == Text("owner") || f[ROLE] == Text("admin") || f[ROLE] == Text("member"))
  }

  /** The token the stored ciphertext decrypts to. */
  ghost predicate Decrypts(p: Payload, raw: RawToken) {
    p.Object? && ENCRYPTED_RAW_TOKEN in p.fields && p.fields[ENCRYPTED_RAW_TOKEN] == Cipher(Encrypted(raw))
  }

  ghost predicate Live(i: Invite, now: Time) { i.status == InvitePending && (i.expiresAt == None || i.expiresAt.value > now) }

  lemma BlankHasNoInk(t: string)
    ensures IsBlank(t) <==> !HasInk(t)
  {}

  /** Payloads are refused exactly when they are not acceptable; acceptable ones are read for
      their invite id and ciphertext. */
  lemma ParsesExactly(p: Payload)
    ensures ParsePayload(p).Some? <==> Acceptable(p)
    ensures Acceptable(p) ==>
      && ParsePayload(p).value.invite == p.fields[INVITE_ID].id
      && forall raw: RawToken :: Decrypt(ParsePayload(p).value.cipher) == Some(raw) <==> Decrypts(p, raw)
  {
    hide IsBlank, HasInk;
    if p.Object? && ENCRYPTED_RAW_TOKEN in p.fields {
      match p.fields[ENCRYPTED_RAW_TOKEN]
      case Text(t) => BlankHasNoInk(t);
      case Cipher(c) => if c.Undecryptable? { BlankHasNoInk(c.text); }
      case _ =>
    }
  }

  /** The whole decision table: each decision, exactly when it is taken. */
  lemma DecidesExactly(e: Event, invites: map<InviteId, Invite>, enabled: bool, now: Time, raw: RawToken, i: InviteId)
    ensures var d := Decide(e, invites, enabled, now);
      var forInvite := e.eventType == INVITE_CREATED || e.eventType == INVITE_RESEND;
      var ok := forInvite && Acceptable(e.payload);
      var named := if ok then e.payload.fields[INVITE_ID].id else 0;
      var open := ok && named in invites && Live(invites[named], now) && enabled;
      && (d == MalformedPayload <==> forInvite && !ok)
      && (d == InviteNotFound <==> ok && named !in invites)
      && (d == MarkProcessed <==> !forInvite || (ok && named in invites && (!Live(invites[named], now) || !enabled)))
      && (d == DecryptionFailed <==> open && !exists r :: Decrypts(e.payload, r))
      && (d == TokenHashMismatch <==> open && exists r :: Decrypts(e.payload, r) && invites[named].tokenHash != Sha256(r))
      && (d == Deliver(raw, i) <==> open && i == named && Decrypts(e.payload, raw) && invites[i].tokenHash == Sha256(raw))
      && d != Skip
  {
    hide ParsePayload, Acceptable;
    ParsesExactly(e.payload);
    if Acceptable(e.payload) && Decrypt(ParsePayload(e.payload).value.cipher).Some? {
      assert Decrypts(e.payload, Decrypt(ParsePayload(e.payload).value.cipher).value);
    }
  }

  /** The claiming transaction as a whole: it skips exactly what is not in flight or is owned;
      otherwise it records the claim, locks the event, and marks the invite named by an acceptable
      payload as expired if that is what it is. Nothing else changes. */
  lemma GrantDoes(db: Db, id: EventId, token: ClaimToken, enabled: bool, now: Time)
    ensures var (d, after) := Granted(db, id, token, enabled, now);
      var free := id in db.events && db.events[id].status == PROCESSING && id !in db.claims;
      && (d == Skip <==> !free)
      && (!free ==> after == db)
      && (free ==>
          var e := db.events[id];
          && d == Decide(e, db.invites, enabled, now)
          && after.claims == db.claims[id := Claim(token, now)]
          && after.events == db.events[id := e.(lockedAt := Some(now), updatedAt := now)]
          && after.invites ==
               if (e.eventType == INVITE_CREATED || e.eventType == INVITE_RESEND) && Acceptable(e.payload)
                  && e.payload.fields[INVITE_ID].id in db.invites
                  && db.invites[e.payload.fields[INVITE_ID].id].status == InvitePending
                  && !Live(db.invites[e.payload.fields[INVITE_ID].id], now)
               then db.invites[e.payload.fields[INVITE_ID].id :=
                                 db.invites[e.payload.fields[INVITE_ID].id].(status := InviteExpired)]
               else db.invites)
  {
    if Claimable(db, id) {
      hide ParsePayload, Acceptable;
      ParsesExactly(db.events[id].payload);
      DecidesExactly(db.events[id], db.invites, enabled, now, 0, 0);
    }
  }

  /** A worker is told to deliver exactly when, in the claiming transaction itself, the event is
      an unowned invite event in flight with an acceptable payload, delivery is enabled, and its
      token opens the invite the payload names, which is pending and not expired. */
  lemma DeliversExactlyWhen(db: Db, event: EventId, token: ClaimToken, enabled: bool, now: Time, raw: RawToken, i: InviteId)
    ensures Granted(db, event, token, enabled, now).0 == Deliver(raw, i) <==>
      && event in db.events && db.events[event].status == PROCESSING && event !in db.claims && enabled
      && (db.events[event].eventType == INVITE_CREATED || db.events[event].eventType == INVITE_RESEND)
      && Acceptable(db.events[event].payload) && db.events[event].payload.fields[INVITE_ID].id == i
      && Decrypts(db.events[event].payload, raw)
      && i in db.invites && db.invites[i].tokenHash == Sha256(raw) && db.invites[i].status == InvitePending
      && (db.invites[i].expiresAt == None || db.invites[i].expiresAt.value > now)
  {
    hide Granted, Decide, Acceptable, Decrypts;
    GrantDoes(db, event, token, enabled, now);
    if event in db.events {
      DecidesExactly(db.events[event], db.invites, enabled, now, raw, i);
    }
  }

  /** The error under which each kind of failure is recorded, by the worker that owns the event. */
  lemma FailuresAreNamed(db: Db, id: EventId, token: ClaimToken, action: Action, now: Time)
    requires id in db.events && db.events[id].status == PROCESSING && id in db.claims && db.claims[id].token == token
    requires action == MalformedPayload || action == InviteNotFound || action == DecryptionFailed || action == TokenHashMismatch
    ensures Reported(db, id, token, false, FailureOf(action), now).events[id].lastError == Some(
      match action
      case MalformedPayload => "malformed_outbox_payload"
      case InviteNotFound => "invite_not_found"
      case DecryptionFailed => "outbox_payload_decryption_failed"
      case _ => "token_hash_mismatch")
  {
    hide ScrubbedDelivery;
  }

  /* ---- What the services publish ---- */

  /** The payload published with a token, member by member. */
  lemma PublishedPayload(i: InviteId, invite: Invite, raw: RawToken, purpose: string)
    requires purpose == "created" || purpose == "resent"
    ensures var p := InvitePayload(i, invite, raw, purpose);
      && Acceptable(p) && p.fields[INVITE_ID] == Id(i) && Decrypts(p, raw)
      && p.fields.Keys == {INVITE_ID, ORGANISATION_ID, EMAIL, ENCRYPTED_RAW_TOKEN, PURPOSE, ROLE}
      && p.fields[ORGANISATION_ID] == Id(invite.organisationId) && p.fields[EMAIL] == Text(invite.email)
      && p.fields[PURPOSE] == Text(purpose)
      && p.fields[ROLE] == Text(match invite.role case OWNER => "owner" case ADMIN => "admin" case MEMBER => "member")
  {}

  /** Until an event is finished, its type and payload are the ones it was published with. */
  lemma MoveKeepsPayload(move: Move, before: Db, after: Db, id: EventId, now: Time)
    requires Moved(move, before, after, id, now) && id in before.events
    ensures id in after.events
    ensures !Terminal(after.events[id]) ==>
      && !Terminal(before.events[id])
      && after.events[id].payload == before.events[id].payload && after.events[id].eventType == before.events[id].eventType
  {
    hide SafePayload, ScrubbedDelivery;
  }

  lemma {:induction false} RunKeepsPayload(s: System, run: seq<Step>, id: EventId)
    requires IsRun(s, run) && id in s.db.events
    ensures id in Final(s, run).db.events
    ensures var e := Final(s, run).db.events[id];
      !Terminal(e) ==> e.payload == s.db.events[id].payload && e.eventType == s.db.events[id].eventType
    decreases |run|
  {
    hide Enabled, Apply, MoveOf, Moved;
    if run != [] {
      StepMoves(s, run[0], id);
      MoveKeepsPayload(MoveOf(s, run[0], id), s.db, Apply(s, run[0]).db, id, s.now);
      RunKeepsPayload(Apply(s, run[0]), run[1..], id);
      if !Terminal(Final(s, run).db.events[id]) {
        NotFinishedBefore(Apply(s, run[0]), run[1..], id);
      }
    }
  }

  lemma {:induction false} NotFinishedBefore(s: System, run: seq<Step>, id: EventId)
    requires IsRun(s, run) && id in s.db.events
    ensures id in Final(s, run).db.events && (!Terminal(Final(s, run).db.events[id]) ==> !Terminal(s.db.events[id]))
    decreases |run|
  {
    hide Enabled, Apply, MoveOf, Moved;
    if run != [] {
      StepMoves(s, run[0], id);
      MoveKeepsPayload(MoveOf(s, run[0], id), s.db, Apply(s, run[0]).db, id, s.now);
      NotFinishedBefore(Apply(s, run[0]), run[1..], id);
    }
  }

  /** The step that publishes a token for an invite under an event. */
  ghost predicate Publishes(step: Step, i: InviteId, raw: RawToken, e: EventId) {
    (step.CreateInvite? && step.invite == i && step.token == raw && step.event == e)
    || (step.ResendInvite? && step.invite == i && step.token == raw && step.event == e)
  }

  lemma PublishedEvent(s: System, step: Step, i: InviteId, raw: RawToken, e: EventId)
    requires Enabled(s, step) && Publishes(step, i, raw, e)
    ensures var db := Apply(s, step).db;
      && e in db.events && Acceptable(db.events[e].payload) && db.events[e].payload.fields[INVITE_ID].id == i
      && Decrypts(db.events[e].payload, raw)
      && (db.events[e].eventType == INVITE_CREATED || db.events[e].eventType == INVITE_RESEND)
  {
    hide InvitePayload, Acceptable, Decrypts, Normalised;
    match step
    case CreateInvite(_, row, _, _) => PublishedPayload(i, row, raw, "created");
    case ResendInvite(_, _, _) =>
      PublishedPayload(i, s.db.invites[i].(tokenHash := Sha256(raw), expiresAt := Some(s.now + INVITE_TTL)), raw, "resent");
  }

  /** What is published is delivered: whatever happened since a create or a resend, a worker that
      is granted its event while the invite is pending, not expired and still answers to the
      published token, is told to deliver exactly that token. */
  lemma PublishedTokensAreDelivered(
    s: System, publish: Step, run: seq<Step>, i: InviteId, raw: RawToken, e: EventId, w: ClaimToken)
    requires Enabled(s, publish) && Publishes(publish, i, raw, e) && IsRun(Apply(s, publish), run)
    requires var t := Final(Apply(s, publish), run);
      && e in t.db.events && t.db.events[e].status == PROCESSING && e !in t.db.claims && w !in t.workers
      && i in t.db.invites && t.db.invites[i].tokenHash == Sha256(raw)
      && t.db.invites[i].status == InvitePending
      && (t.db.invites[i].expiresAt == None || t.db.invites[i].expiresAt.value > t.now)
    ensures var t := Final(Apply(s, publish), run);
      && Enabled(t, Grant(e, w, true))
      && var after := Apply(t, Grant(e, w, true));
         w in after.workers && after.workers[w] == WorkerRun(e, Deliver(raw, i), false)
  {
    hide Acceptable, Granted, Decide, Enabled, Apply, IsRun, Final, Publishes, Decrypts;
    PublishedEvent(s, publish, i, raw, e);
    RunKeepsPayload(Apply(s, publish), run, e);
    var t := Final(Apply(s, publish), run);
    GrantDoes(t.db, e, w, true, t.now);
    LiveDelivers(t.db.events[e], t.db.invites, t.now, raw, i);
    GrantStarts(t, e, w);
  }

  lemma LiveDelivers(e: Event, invites: map<InviteId, Invite>, now: Time, raw: RawToken, i: InviteId)
    requires (e.eventType == INVITE_CREATED || e.eventType == INVITE_RESEND) && Acceptable(e.payload)
    requires e.payload.fields[INVITE_ID].id == i && Decrypts(e.payload, raw)
    requires i in invites && Live(invites[i], now) && invites[i].tokenHash == Sha256(raw)
    ensures Decide(e, invites, true, now) == Deliver(raw, i)
  {
    hide Acceptable, Decide, Decrypts, Live;
    DecidesExactly(e, invites, true, now, raw, i);
  }

  lemma GrantStarts(s: System, e: EventId, w: ClaimToken)
    requires w !in s.workers
    ensures Enabled(s, Grant(e, w, true))
    ensures var (action, _) := Granted(s.db, e, w, true, s.now);
      action != Skip ==> var after := Apply(s, Grant(e, w, true));
                         w in after.workers && after.workers[w] == WorkerRun(e, action, false)
  {
    hide Granted;
  }
}
