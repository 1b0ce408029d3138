/** Which tokens can still be delivered. Tokens are fresh and digests free of collisions, so
    an invite has one live token, at most one event carries it, and a token that was rotated
    away, revoked, used, erased or left to expire is never chosen for delivery again. */
module InviteTokens {
  import opened Common
  import opened Records
  import opened OutboxRepository
  import opened InviteTable
  import opened Worker
  import opened Scrubbing
  import opened DeliverySystem

  /** The token inside an event's payload. */
  function TokenOf(e: Event): Option<RawToken> {
    if Field(e.payload, ENCRYPTED_RAW_TOKEN).Cipher? then Decrypt(Field(e.payload, ENCRYPTED_RAW_TOKEN).cipher)
    else None
  }

  /** The token a step draws, with the invite and the event it is drawn for. */
  predicate Draws(step: Step, token: RawToken, invite: InviteId, event: EventId) {
    (step.CreateInvite? || step.ResendInvite?)
    && step.token == token && step.invite == invite && step.event == event
  }

  ghost predicate TokenInv(s: System) {
    && (forall id :: id in s.db.events && TokenOf(s.db.events[id]).Some? ==>
          TokenOf(s.db.events[id]).value in s.issued)
    && (forall a, b :: (a in s.db.events && b in s.db.events && TokenOf(s.db.events[a]).Some?
          && TokenOf(s.db.events[a]) == TokenOf(s.db.events[b])) ==> a == b)
    && (forall i :: i in s.db.invites ==>
          match s.db.invites[i].tokenHash
          case Sha256(token) => token in s.issued
          case ScrubbedHash(j) => j == i)
    && UniqueHashes(s.db.invites)
  }

  /** An event keeps the token it was published with until it is scrubbed. */
  lemma StepTokens(s: System, step: Step, id: EventId)
    requires Enabled(s, step)
    requires id in Apply(s, step).db.events && TokenOf(Apply(s, step).db.events[id]).Some?
    ensures var token := TokenOf(Apply(s, step).db.events[id]).value;
      || (id in s.db.events && TokenOf(s.db.events[id]) == Some(token))
      || (id !in s.db.events && exists i :: Draws(step, token, i, id))
  {
    var after := Apply(s, step).db.events[id];
    match step
    case CreateInvite(i, _, token, event) =>
      if id == event { assert Draws(step, token, i, id); }
    case ResendInvite(i, token, event) =>
      if id == event { assert Draws(step, token, i, id); }
    case PublishOther(_, _, _) =>
    case _ => StepMoves(s, step, id);
  }

  /** An invite keeps its hash until it is rotated or scrubbed. */
  lemma StepHashes(s: System, step: Step, i: InviteId)
    requires Enabled(s, step) && i in Apply(s, step).db.invites
    ensures var hash := Apply(s, step).db.invites[i].tokenHash;
      || (i in s.db.invites && hash == s.db.invites[i].tokenHash)
      || (i in s.db.invites && hash == ScrubbedHash(i))
      || (hash.Sha256? && (exists event :: Draws(step, hash.token, i, event)))
  {
    match step
    case CreateInvite(j, _, token, event) =>
      if i == j { assert Draws(step, token, i, event); }
    case ResendInvite(j, token, event) =>
      if i == j { assert Draws(step, token, i, event); }
    case _ =>
  }

  lemma IssuedGrows(s: System, step: Step)
    requires Enabled(s, step)
    ensures s.issued <= Apply(s, step).issued
  {}

  lemma StepEventTokens(s: System, step: Step)
    requires TokenInv(s) && Enabled(s, step)
    ensures var t := Apply(s, step);
      && (forall id :: id in t.db.events && TokenOf(t.db.events[id]).Some? ==> TokenOf(t.db.events[id]).value in t.issued)
      && (forall a, b :: (a in t.db.events && b in t.db.events && TokenOf(t.db.events[a]).Some?
            && TokenOf(t.db.events[a]) == TokenOf(t.db.events[b])) ==> a == b)
  {
    var t := Apply(s, step);
    IssuedGrows(s, step);
    forall id | id in t.db.events && TokenOf(t.db.events[id]).Some?
      ensures TokenOf(t.db.events[id]).value in t.issued
    {
      StepTokens(s, step, id);
    }
    forall a, b | a in t.db.events && b in t.db.events && TokenOf(t.db.events[a]).Some?
                  && TokenOf(t.db.events[a]) == TokenOf(t.db.events[b])
      ensures a == b
    {
      StepTokens(s, step, a);
      StepTokens(s, step, b);
    }
  }

  lemma StepInviteHashes(s: System, step: Step)
    requires TokenInv(s) && Enabled(s, step)
    ensures var t := Apply(s, step);
      && UniqueHashes(t.db.invites)
      && forall i :: i in t.db.invites ==>
           match t.db.invites[i].tokenHash
           case Sha256(token) => token in t.issued
           case ScrubbedHash(j) => j == i
  {
    var t := Apply(s, step);
    IssuedGrows(s, step);
    forall i | i in t.db.invites
      ensures match t.db.invites[i].tokenHash
              case Sha256(token) => token in t.issued
              case ScrubbedHash(j) => j == i
    {
      StepHashes(s, step, i);
    }
    forall i, j | i in t.db.invites && j in t.db.invites && t.db.invites[i].tokenHash == t.db.invites[j].tokenHash
      ensures i == j
    {
      StepHashes(s, step, i);
      StepHashes(s, step, j);
    }
  }

  lemma {:induction false} RunTokens(s: System, run: seq<Step>)
    requires TokenInv(s) && IsRun(s, run)
    ensures TokenInv(Final(s, run))
    decreases |run|
  {
    if run != [] {
      StepEventTokens(s, run[0]);
      StepInviteHashes(s, run[0]);
      RunTokens(Apply(s, run[0]), run[1..]);
    }
  }

  /** Whether an event carries the token an invite currently answers to. */
  predicate CarriesCurrent(db: Db, event: EventId, invite: InviteId) {
    && event in db.events && invite in db.invites
    && TokenOf(db.events[event]).Some?
    && Sha256(TokenOf(db.events[event]).value) == db.invites[invite].tokenHash
  }

  /** In every reachable state at most one event carries an invite's live token, that token
      opens no other invite, and the table's unique index on token hashes is respected. */
  lemma OneEventPerLiveToken(s: System, run: seq<Step>, a: EventId, b: EventId, i: InviteId, j: InviteId)
    requires Initial(s) && IsRun(s, run)
    ensures var db := Final(s, run).db;
      && (CarriesCurrent(db, a, i) && CarriesCurrent(db, b, i) ==> a == b)
      && (CarriesCurrent(db, a, i) && CarriesCurrent(db, a, j) ==> i == j)
      && UniqueHashes(db.invites)
  {
    RunTokens(s, run);
  }

  /* ---- Tokens that are over ---- */

  /** No invite that can be used answers to the token any more. */
  ghost predicate Dead(s: System, raw: RawToken) {
    && raw in s.issued
    && forall i :: i in s.db.invites && s.db.invites[i].tokenHash == Sha256(raw) ==> !Usable(s.db.invites[i], s.now)
  }

  /** An invite that keeps its hash does not become usable again. */
  lemma StepUsable(s: System, step: Step, i: InviteId)
    requires Enabled(s, step) && i in s.db.invites && i in Apply(s, step).db.invites
    requires Apply(s, step).db.invites[i].tokenHash == s.db.invites[i].tokenHash
    requires s.db.invites[i].tokenHash.Sha256? ==> s.db.invites[i].tokenHash.token in s.issued
    requires s.db.invites[i].tokenHash.Sha256?
    requires Usable(Apply(s, step).db.invites[i], Apply(s, step).now)
    ensures Usable(s.db.invites[i], s.now)
  {}

  lemma {:induction false} DeadForever(s: System, run: seq<Step>, raw: RawToken)
    requires IsRun(s, run) && Dead(s, raw)
    ensures Dead(Final(s, run), raw)
    decreases |run|
  {
    if run != [] {
      var t := Apply(s, run[0]);
      IssuedGrows(s, run[0]);
      forall i | i in t.db.invites && t.db.invites[i].tokenHash == Sha256(raw)
        ensures !Usable(t.db.invites[i], t.now)
      {
        StepHashes(s, run[0], i);
        if Usable(t.db.invites[i], t.now) {
          StepUsable(s, run[0], i);
        }
      }
      DeadForever(t, run[1..], raw);
    }
  }

  /** The tokens a run decides to deliver. */
  ghost function {:induction false} Chosen(s: System, run: seq<Step>): set<RawToken>
    requires IsRun(s, run)
    decreases |run|
  {
    if run == [] then {}
    else
      var first := run[0];
      var now: set<RawToken> :=
        if first.Grant? && Granted(s.db, first.event, first.token, first.deliveryEnabled, s.now).0.Deliver?
        then {Granted(s.db, first.event, first.token, first.deliveryEnabled, s.now).0.raw} else {};
      now + Chosen(Apply(s, first), run[1..])
  }

  /** A dead token is never chosen again, though events that carry it may still be around. */
  lemma {:induction false} DeadNeverChosen(s: System, run: seq<Step>, raw: RawToken)
    requires IsRun(s, run) && Dead(s, raw)
    ensures raw !in Chosen(s, run)
    decreases |run|
  {
    if run != [] {
      DeadForever(s, run[..1], raw) by { assert IsRun(Apply(s, run[0]), run[..1][1..]); }
      assert Final(s, run[..1]) == Final(Apply(s, run[0]), run[..1][1..]);
      DeadNeverChosen(Apply(s, run[0]), run[1..], raw);
    }
  }

  /** The steps that end a token: rotation, revocation, acceptance, erasure of the invitee, and
      the moment of expiry. */
  predicate Ends(s: System, step: Step, i: InviteId) {
    match step
    case ResendInvite(j, _, _) => j == i
    case RevokeInvite(j, _) => j == i
    case AcceptInvite(j) => j == i
    case Erase(_, email, _, invites) =>
      i in invites && i in s.db.invites && IsInvitee(s.db.invites[i], email)
    case Tick(to) => i in s.db.invites && ExpiredAt(s.db.invites[i], to)
    case _ => false
  }

  lemma EndMakesUnusable(s: System, step: Step, i: InviteId)
    requires Enabled(s, step) && i in s.db.invites && s.db.invites[i].tokenHash.Sha256?
    requires s.db.invites[i].tokenHash.token in s.issued && Ends(s, step, i)
    ensures i in Apply(s, step).db.invites
    ensures Apply(s, step).db.invites[i].tokenHash == s.db.invites[i].tokenHash
            ==> !Usable(Apply(s, step).db.invites[i], Apply(s, step).now)
  {
    match step
    case ResendInvite(_, token, _) => assert Apply(s, step).db.invites[i].tokenHash == Sha256(token);
    case Erase(subject, email, _, _) => ErasureTakesHash(i, s.db.invites[i], subject, email, s.now);
    case _ =>
  }

  lemma ErasureTakesHash(i: InviteId, row: Invite, subject: UserId, email: Option<string>, now: Time)
    requires IsInvitee(row, email) && row.tokenHash.Sha256?
    ensures ErasedInvite(i, row, subject, email, now).tokenHash == ScrubbedHash(i)
  {}

  /** Once such a step has been taken on an invite in a reachable state, no later worker is told
      to deliver the token it had before. A worker told so earlier may still do it. */
  lemma EndedTokenNeverChosen(start: System, past: seq<Step>, step: Step, run: seq<Step>, i: InviteId, raw: RawToken)
    requires Initial(start) && IsRun(start, past)
    requires var s := Final(start, past);
      && Enabled(s, step) && Ends(s, step, i)
      && i in s.db.invites && s.db.invites[i].tokenHash == Sha256(raw)
      && IsRun(Apply(s, step), run)
    ensures raw !in Chosen(Apply(Final(start, past), step), run)
  {
    EndedTokenIsDead(start, past, step, i, raw);
    DeadNeverChosen(Apply(Final(start, past), step), run, raw);
  }

  lemma EndedTokenIsDead(start: System, past: seq<Step>, step: Step, i: InviteId, raw: RawToken)
    requires Initial(start) && IsRun(start, past)
    requires var s := Final(start, past);
      Enabled(s, step) && Ends(s, step, i) && i in s.db.invites && s.db.invites[i].tokenHash == Sha256(raw)
    ensures Dead(Apply(Final(start, past), step), raw)
  {
    var s := Final(start, past);
    RunTokens(start, past);
    EndMakesUnusable(s, step, i);
    StepKills(s, step, i, raw);
  }

  lemma StepKills(s: System, step: Step, i: InviteId, raw: RawToken)
    requires TokenInv(s) && Enabled(s, step)
    requires i in s.db.invites && s.db.invites[i].tokenHash == Sha256(raw)
    requires i in Apply(s, step).db.invites
    requires Apply(s, step).db.invites[i].tokenHash == Sha256(raw)
             ==> !Usable(Apply(s, step).db.invites[i], Apply(s, step).now)
    ensures Dead(Apply(s, step), raw)
  {
    var t := Apply(s, step);
    IssuedGrows(s, step);
    forall j | j in t.db.invites && t.db.invites[j].tokenHash == Sha256(raw)
      ensures !Usable(t.db.invites[j], t.now)
    {
      StepHashes(s, step, j);
    }
  }
}
