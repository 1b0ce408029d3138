/** Deciding and delivering are two steps: the decision is made in the claiming transaction, the
    token is sent after it. What can still be sent of a token whose invite has ended in between. */
module LateSends {
  import opened Common
  import opened Records
  import opened OutboxRepository
  import opened InviteTable
  import opened InviteService
  import opened Worker
  import opened DeliverySystem
  import opened InviteTokens
  import opened TextRules

  /** A worker that was told to deliver the token and has not asked the sink yet. */
  predicate MaySend(w: WorkerRun, raw: RawToken) { w.action.Deliver? && w.action.raw == raw && !w.sent }

  ghost function Holders(s: System, raw: RawToken): set<ClaimToken> {
    set token | token in s.workers && MaySend(s.workers[token], raw)
  }

  predicate SendsRaw(s: System, step: Step, raw: RawToken)
    requires Enabled(s, step)
  {
    step.Send? && s.workers[step.token].action.raw == raw
  }

  /** The workers that send the token during a run, in order. */
  ghost function {:induction false} Senders(s: System, run: seq<Step>, raw: RawToken): seq<ClaimToken>
    requires IsRun(s, run)
    decreases |run|
  {
    if run == [] then []
    else (if SendsRaw(s, run[0], raw) then [run[0].token] else []) + Senders(Apply(s, run[0]), run[1..], raw)
  }

  /** A step that does not choose the token hands it to nobody; sending it uses the hold up. */
  lemma StepHolders(s: System, step: Step, raw: RawToken)
    requires Enabled(s, step) && raw !in Chosen(s, [step])
    ensures Holders(Apply(s, step), raw) == Holders(s, raw) - if SendsRaw(s, step, raw) then {step.token} else {}
    ensures SendsRaw(s, step, raw) ==> step.token in Holders(s, raw)
  {
    assert [step][0] == step;
    var after := Holders(Apply(s, step), raw);
    match step
    case Send(token) => assert after == Holders(s, raw) - if SendsRaw(s, step, raw) then {token} else {};
    case Grant(event, token, enabled) =>
      hide ExpiredByDecision, Reserved, Decide;
      assert after == Holders(s, raw);
    case _ => assert after == Holders(s, raw);
  }

  lemma ChosenSplits(s: System, run: seq<Step>, raw: RawToken)
    requires IsRun(s, run) && run != [] && raw !in Chosen(s, run)
    ensures raw !in Chosen(s, [run[0]]) && raw !in Chosen(Apply(s, run[0]), run[1..])
  {
    assert [run[0]][1..] == [];
  }

  /** As long as the token is not chosen again, whoever sends it held it at the start, each holder
      sends it at most once, and the others still hold it at the end. */
  lemma {:induction false} SendersHeldIt(s: System, run: seq<Step>, raw: RawToken)
    requires IsRun(s, run) && raw !in Chosen(s, run)
    ensures Distinct(Senders(s, run, raw)) && Elements(Senders(s, run, raw)) <= Holders(s, raw)
    ensures Holders(Final(s, run), raw) == Holders(s, raw) - Elements(Senders(s, run, raw))
    decreases |run|
  {
    hide Apply, Enabled, Chosen, Holders;
    if run != [] {
      ChosenSplits(s, run, raw);
      StepHolders(s, run[0], raw);
      var rest := Senders(Apply(s, run[0]), run[1..], raw);
      SendersHeldIt(Apply(s, run[0]), run[1..], raw);
      if SendsRaw(s, run[0], raw) {
        PrependDistinct(run[0].token, rest);
      } else {
        assert [] + rest == rest;
      }
    }
  }

  lemma PrependDistinct(x: ClaimToken, rest: seq<ClaimToken>)
    requires Distinct(rest) && x !in Elements(rest)
    ensures Distinct([x] + rest) && Elements([x] + rest) == {x} + Elements(rest)
  {
    forall y ensures y in Elements([x] + rest) <==> y in {x} + Elements(rest) {}
    assert forall y :: y in rest ==> y in Elements(rest);
  }

  /** The exact law of late sends. After an invite has ended in a reachable state, its old token
      can still be sent exactly when a worker holds it at that moment. Every later send is by one
      of these workers and no worker sends twice, so there are at most as many sends as holders. */
  lemma EndedTokenSentExactlyByHolders(start: System, past: seq<Step>, step: Step, i: InviteId, raw: RawToken)
    requires Initial(start) && IsRun(start, past)
    requires var s := Final(start, past);
      Enabled(s, step) && Ends(s, step, i) && i in s.db.invites && s.db.invites[i].tokenHash == Sha256(raw)
    ensures var s := Final(start, past);
      var ended := Apply(s, step);
      && Holders(ended, raw) == Holders(s, raw)
      && ((exists run :: IsRun(ended, run) && Senders(ended, run, raw) != []) <==> Holders(s, raw) != {})
      && (forall run :: IsRun(ended, run) ==>
            Distinct(Senders(ended, run, raw)) && Elements(Senders(ended, run, raw)) <= Holders(s, raw)
            && |Senders(ended, run, raw)| <= |Holders(s, raw)|)
  {
    hide Enabled, Apply, Holders, Ends, Chosen, Dead, Senders;
    var s := Final(start, past);
    var ended := Apply(s, step);
    EndedTokenIsDead(start, past, step, i, raw);
    EndKeepsHolders(s, step, i, raw);
    forall run | IsRun(ended, run)
      ensures Distinct(Senders(ended, run, raw)) && Elements(Senders(ended, run, raw)) <= Holders(s, raw)
      ensures |Senders(ended, run, raw)| <= |Holders(s, raw)|
      ensures Senders(ended, run, raw) != [] ==> Holders(s, raw) != {}
    {
      DeadNeverChosen(ended, run, raw);
      SendersHeldIt(ended, run, raw);
      DistinctSize(Senders(ended, run, raw));
      SubsetSize(Elements(Senders(ended, run, raw)), Holders(s, raw));
      if Senders(ended, run, raw) != [] {
        assert Senders(ended, run, raw)[0] in Elements(Senders(ended, run, raw));
      }
    }
    if Holders(s, raw) != {} {
      var token :| token in Holders(s, raw);
      HolderCanSend(ended, token, raw);
    }
  }

  lemma EndKeepsHolders(s: System, step: Step, i: InviteId, raw: RawToken)
    requires Enabled(s, step) && Ends(s, step, i)
    ensures Holders(Apply(s, step), raw) == Holders(s, raw)
  {}

  lemma HolderCanSend(s: System, token: ClaimToken, raw: RawToken)
    requires token in Holders(s, raw)
    ensures IsRun(s, [Send(token)]) && Senders(s, [Send(token)], raw) == [token]
  {
    var run: seq<Step> := [Send(token)];
    assert run[1..] == [];
    assert Enabled(s, run[0]) && SendsRaw(s, run[0], raw);
    assert Senders(Apply(s, run[0]), run[1..], raw) == [];
  }

  /* ---- A late send ---- */

  function FreshInvite(s: System, email: string, raw: RawToken): Invite { NewInvite(email, 0, MEMBER, raw, s.now) }

  lemma FreshPayloadParses(i: InviteId, invite: Invite, raw: RawToken)
    ensures ParsePayload(InvitePayload(i, invite, raw, "created")) == Some(ParsedPayload(i, Encrypted(raw)))
  {}

  /** An invite is created, its event claimed and granted to a worker, and then the invite is
      revoked: the worker still holds the token and may send it. */
  lemma RevokedTokenCanBeSent(s: System, email: string, i: InviteId, raw: RawToken, e: EventId, w: ClaimToken, actor: UserId)
    requires Initial(s) && Normalised(email) == email
    ensures var granted := [CreateInvite(i, FreshInvite(s, email, raw), raw, e), ClaimDue({e}), Grant(e, w, true)];
      && IsRun(s, granted)
      && var before := Final(s, granted);
         var revoke := RevokeInvite(i, actor);
         && Enabled(before, revoke) && Ends(before, revoke, i)
         && i in before.db.invites && before.db.invites[i].tokenHash == Sha256(raw)
         && w in Holders(before, raw)
         && Enabled(Apply(before, revoke), Send(w)) && SendsRaw(Apply(before, revoke), Send(w), raw)
  {
    hide ParsePayload, InvitePayload, Normalised;
    var row := FreshInvite(s, email, raw);
    var run: seq<Step> := [CreateInvite(i, row, raw, e), ClaimDue({e}), Grant(e, w, true)];
    assert run[1..] == [ClaimDue({e}), Grant(e, w, true)] && run[1..][1..] == [Grant(e, w, true)] && run[1..][1..][1..] == [];
    CreatedAndClaimed(s, email, i, raw, e);
    var s1 := Apply(s, run[0]);
    var s2 := Apply(s1, run[1]);
    FreshPayloadParses(i, row, raw);
    GrantedDelivers(s2, email, i, raw, e, w);
    var s3 := Apply(s2, run[2]);
    assert IsRun(s3, run[1..][1..][1..]) && IsRun(s2, run[1..][1..]) && IsRun(s1, run[1..]) && IsRun(s, run);
    assert Final(s3, run[1..][1..][1..]) == s3;
    assert Final(s2, run[1..][1..]) == s3 && Final(s1, run[1..]) == s3 && Final(s, run) == s3;
    assert w in Holders(s3, raw);
    EndKeepsHolders(s3, RevokeInvite(i, actor), i, raw);
  }

  lemma CreatedAndClaimed(s: System, email: string, i: InviteId, raw: RawToken, e: EventId)
    requires Initial(s) && Normalised(email) == email
    ensures var row := FreshInvite(s, email, raw);
      var create := CreateInvite(i, row, raw, e);
      && Enabled(s, create)
      && var s1 := Apply(s, create);
         && Enabled(s1, ClaimDue({e}))
         && var s2 := Apply(s1, ClaimDue({e}));
            && Claimable(s2.db, e) && s2.db.invites == map[i := row] && s2.workers == map[] && s2.now == s.now
            && s2.db.events[e].eventType == INVITE_CREATED
            && s2.db.events[e].payload == InvitePayload(i, row, raw, "created")
  {
    hide InvitePayload, Normalised;
  }

  lemma GrantedDelivers(s: System, email: string, i: InviteId, raw: RawToken, e: EventId, w: ClaimToken)
    requires Claimable(s.db, e) && w !in s.workers
    requires i in s.db.invites && s.db.invites[i] == FreshInvite(s, email, raw)
    requires s.db.events[e].eventType == INVITE_CREATED
    requires ParsePayload(s.db.events[e].payload) == Some(ParsedPayload(i, Encrypted(raw)))
    ensures var step := Grant(e, w, true);
      && Enabled(s, step)
      && var after := Apply(s, step);
         && w in after.workers && after.workers[w] == WorkerRun(e, Deliver(raw, i), false)
         && after.db.invites == s.db.invites
  {
    hide ParsePayload;
  }
}
