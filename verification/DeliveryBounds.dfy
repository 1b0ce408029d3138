/** What every run keeps to: how often an event is handed out, delivered and moved, how far
    apart its failures are, and that a superseded worker is powerless. */
module DeliveryBounds {
  import opened Common
  import opened Records
  import opened OutboxRepository
  import opened DeliverySystem

  /* ---- How many claims an event can still be granted ---- */

  /** Each attempt left is one more claim, unless this attempt's claim is out already. */
  function ClaimBudget(db: Db, id: EventId): int {
    if id !in db.events then DEFAULT_MAX_ATTEMPTS
    else
      var e := db.events[id];
      if Terminal(e) then 0 else e.maxAttempts - e.attempts - (if id in db.claims then 1 else 0)
  }

  /** The number of delivery claims a run grants for one event. */
  ghost function {:induction false} ClaimsGranted(s: System, run: seq<Step>, id: EventId): nat
    requires IsRun(s, run)
    decreases |run|
  {
    if run == [] then 0
    else (if MoveOf(s, run[0], id).Taken? then 1 else 0) + ClaimsGranted(Apply(s, run[0]), run[1..], id)
  }

  lemma {:induction false} ClaimsWithinBudget(s: System, run: seq<Step>, id: EventId)
    requires Inv(s) && IsRun(s, run)
    ensures ClaimsGranted(s, run, id) + ClaimBudget(Final(s, run).db, id) <= ClaimBudget(s.db, id)
    ensures ClaimBudget(s.db, id) >= 0
    decreases |run|
  {
    assert InvAt(s, id);
    if run != [] {
      forall i: EventId { StepInvAt(s, run[0], i); }
      StepMoves(s, run[0], id);
      ClaimsWithinBudget(Apply(s, run[0]), run[1..], id);
    }
  }

  /** No run, however messages are lost, repeated or late, grants more claims for an event
      than it may be attempted. */
  lemma ClaimsBounded(s: System, run: seq<Step>, id: EventId)
    requires Initial(s) && IsRun(s, run)
    ensures ClaimsGranted(s, run, id) <= DEFAULT_MAX_ATTEMPTS
  {
    ClaimsWithinBudget(s, run, id);
    RunInv(s, run);
    ClaimsWithinBudget(Final(s, run), [], id);
  }

  /* ---- How often the sink is asked to deliver ---- */

  ghost function Unsent(s: System, id: EventId): set<ClaimToken> {
    set token | token in s.workers && s.workers[token].event == id && !s.workers[token].sent
  }

  ghost function {:induction false} Deliveries(s: System, run: seq<Step>, id: EventId): nat
    requires IsRun(s, run)
    decreases |run|
  {
    if run == [] then 0
    else (if run[0].Send? && s.workers[run[0].token].event == id then 1 else 0)
         + Deliveries(Apply(s, run[0]), run[1..], id)
  }

  /** A delivery uses up a claim that was granted before. */
  lemma StepUnsent(s: System, step: Step, id: EventId)
    requires Enabled(s, step)
    ensures |Unsent(Apply(s, step), id)| + (if step.Send? && s.workers[step.token].event == id then 1 else 0)
            <= |Unsent(s, id)| + (if MoveOf(s, step, id).Taken? then 1 else 0)
  {
    var before, after := Unsent(s, id), Unsent(Apply(s, step), id);
    match step
    case Send(token) =>
      if s.workers[token].event == id {
        assert after == before - {token};
      } else {
        assert after == before;
      }
    case Grant(event, token, _) =>
      if MoveOf(s, step, id).Taken? {
        assert after <= before + {token};
        SubsetSize(after, before + {token});
      } else {
        assert after == before;
      }
    case _ => assert after == before;
  }

  lemma {:induction false} DeliveriesWithinClaims(s: System, run: seq<Step>, id: EventId)
    requires IsRun(s, run)
    ensures Deliveries(s, run, id) <= |Unsent(s, id)| + ClaimsGranted(s, run, id)
    decreases |run|
  {
    if run != [] {
      StepUnsent(s, run[0], id);
      DeliveriesWithinClaims(Apply(s, run[0]), run[1..], id);
    }
  }

  /** Delivery is at least once, but never more often than the allowed attempts. */
  lemma DeliveriesBounded(s: System, run: seq<Step>, id: EventId)
    requires Initial(s) && IsRun(s, run)
    ensures Deliveries(s, run, id) <= DEFAULT_MAX_ATTEMPTS
  {
    DeliveriesWithinClaims(s, run, id);
    ClaimsBounded(s, run, id);
    assert Unsent(s, id) == {};
  }

  /* ---- How many moves an event can still make ---- */

  /** A move of status or claim; scrubbing a finished event is none. */
  predicate IsTransition(move: Move, before: Db, id: EventId) {
    match move
    case Picked => true
    case Taken(_) => true
    case Done => true
    case Fails(_) => true
    case Erased => id in before.events && before.events[id].status.PENDING?
    case _ => false
  }

  /** Three moves to an attempt: picked, taken, and settled one way or the other. */
  function MovesLeft(db: Db, id: EventId): int {
    if id !in db.events then 3 * DEFAULT_MAX_ATTEMPTS
    else
      var e := db.events[id];
      if Terminal(e) then 0
      else 3 * (e.maxAttempts - e.attempts)
           - (if e.status.PENDING? then 0 else if id in db.claims then 2 else 1)
  }

  ghost function {:induction false} Transitions(s: System, run: seq<Step>, id: EventId): nat
    requires IsRun(s, run)
    decreases |run|
  {
    if run == [] then 0
    else (if IsTransition(MoveOf(s, run[0], id), s.db, id) then 1 else 0)
         + Transitions(Apply(s, run[0]), run[1..], id)
  }

  lemma {:induction false} TransitionsWithinMeasure(s: System, run: seq<Step>, id: EventId)
    requires Inv(s) && IsRun(s, run)
    ensures 0 <= Transitions(s, run, id) <= MovesLeft(s.db, id)
    decreases |run|
  {
    assert InvAt(s, id);
    if run != [] {
      forall i: EventId { StepInvAt(s, run[0], i); }
      StepMoves(s, run[0], id);
      TransitionsWithinMeasure(Apply(s, run[0]), run[1..], id);
    }
  }

  /** Any run comes to rest on each event: three moves to an attempt, and no more. */
  lemma TransitionsBounded(s: System, run: seq<Step>, id: EventId)
    requires Initial(s) && IsRun(s, run)
    ensures Transitions(s, run, id) <= 3 * DEFAULT_MAX_ATTEMPTS
  {
    TransitionsWithinMeasure(s, run, id);
  }

  /** PROCESSED and FAILED are final: nothing revives the event or reopens a claim on it. */
  lemma {:induction false} TerminalAbsorbing(s: System, run: seq<Step>, id: EventId)
    requires Inv(s) && IsRun(s, run)
    requires id in s.db.events && Terminal(s.db.events[id])
    ensures var db := Final(s, run).db;
      && id in db.events && db.events[id].status == s.db.events[id].status
      && db.events[id].attempts == s.db.events[id].attempts && id !in db.claims
    decreases |run|
  {
    assert InvAt(s, id);
    if run != [] {
      forall i: EventId { StepInvAt(s, run[0], i); }
      StepMoves(s, run[0], id);
      TerminalAbsorbing(Apply(s, run[0]), run[1..], id);
    }
  }

  /* ---- Fencing ---- */

  /** A worker whose claim is gone: cleared by recovery, release, or its own report. */
  ghost predicate Superseded(s: System, token: ClaimToken) {
    token in s.workers && forall id :: id in s.db.claims ==> s.db.claims[id].token != token
  }

  lemma {:induction false} SupersededForever(s: System, run: seq<Step>, token: ClaimToken)
    requires IsRun(s, run) && Superseded(s, token)
    ensures Superseded(Final(s, run), token)
    decreases |run|
  {
    if run != [] {
      var next := Apply(s, run[0]);
      forall id | id in next.db.claims ensures next.db.claims[id].token != token {
        StepMoves(s, run[0], id);
        assert ClaimOn(next.db, id) == Some(next.db.claims[id].token);
      }
      SupersededForever(next, run[1..], token);
    }
  }

  /** Whatever a superseded worker reports, at whatever later time, changes nothing. */
  lemma LateReportIsHarmless(s: System, run: seq<Step>, token: ClaimToken, success: bool, error: Option<string>)
    requires IsRun(s, run) && Superseded(s, token)
    ensures var later := Final(s, run);
      Enabled(later, Report(token, success, error)) && Apply(later, Report(token, success, error)) == later
  {
    SupersededForever(s, run, token);
  }

  /* ---- Backoff ---- */

  /** The times at which an attempt on the event failed, in order. */
  ghost function {:induction false} FailureTimes(s: System, run: seq<Step>, id: EventId): seq<Time>
    requires IsRun(s, run)
    decreases |run|
  {
    if run == [] then []
    else (if MoveOf(s, run[0], id).Fails? then [s.now] else [])
         + FailureTimes(Apply(s, run[0]), run[1..], id)
  }

  /** The attempts counted so far, and the earliest time the next one can fail. */
  function Attempts(db: Db, id: EventId): nat { if id in db.events then db.events[id].attempts else 0 }

  function EarliestFailure(s: System, id: EventId): Time {
    if id in s.db.events && s.db.events[id].status.PENDING? && s.db.events[id].nextAttemptAt.Some?
       && s.db.events[id].nextAttemptAt.value > s.now
    then s.db.events[id].nextAttemptAt.value else s.now
  }

  predicate Ended(db: Db, id: EventId) { id in db.events && Terminal(db.events[id]) }

  /** One step of the system, as far as the backoff of one event goes. */
  lemma BackoffStep(s: System, step: Step, id: EventId)
    requires Inv(s) && Enabled(s, step)
    ensures var next := Apply(s, step);
      && Inv(next)
      && (MoveOf(s, step, id).Fails? ==>
            && s.now >= EarliestFailure(s, id)
            && (Ended(next.db, id)
                || (Attempts(next.db, id) == Attempts(s.db, id) + 1
                    && EarliestFailure(next, id) >= s.now + Pow2(Attempts(s.db, id) + 1) * SECOND)))
      && (!MoveOf(s, step, id).Fails? ==>
            Ended(next.db, id)
            || (Attempts(next.db, id) == Attempts(s.db, id) && EarliestFailure(next, id) >= EarliestFailure(s, id)))
  {
    assert InvAt(s, id);
    forall i: EventId ensures InvAt(Apply(s, step), i) { StepInvAt(s, step, i); }
    StepMoves(s, step, id);
    ClockRuns(s, step);
    hide Apply, MoveOf, Enabled, Inv;
    MoveBacksOff(MoveOf(s, step, id), s, Apply(s, step), id);
  }

  lemma ClockRuns(s: System, step: Step)
    requires Enabled(s, step)
    ensures Apply(s, step).now >= s.now
  {}

  lemma MoveBacksOff(move: Move, s: System, next: System, id: EventId)
    requires InvAt(s, id) && Moved(move, s.db, next.db, id, s.now) && next.now >= s.now
    ensures move.Fails? ==>
      && s.now >= EarliestFailure(s, id)
      && (Ended(next.db, id)
          || (Attempts(next.db, id) == Attempts(s.db, id) + 1
              && EarliestFailure(next, id) >= s.now + Pow2(Attempts(s.db, id) + 1) * SECOND))
    ensures !move.Fails? ==>
      Ended(next.db, id)
      || (Attempts(next.db, id) == Attempts(s.db, id) && EarliestFailure(next, id) >= EarliestFailure(s, id))
  {}

  lemma {:induction false} FailuresBackOff(s: System, run: seq<Step>, id: EventId, k: nat)
    requires Inv(s) && IsRun(s, run)
    requires k < |FailureTimes(s, run, id)|
    ensures FailureTimes(s, run, id)[k]
            >= EarliestFailure(s, id) + (Pow2(Attempts(s.db, id) + k + 1) - Pow2(Attempts(s.db, id) + 1)) * SECOND
    decreases |run|
  {
    hide Apply, MoveOf, Enabled, Inv, Ended, Attempts, EarliestFailure;
    BackoffStep(s, run[0], id);
    var next := Apply(s, run[0]);
    if Ended(next.db, id) {
      NoFailureAfterEnd(next, run[1..], id);
    } else if MoveOf(s, run[0], id).Fails? {
      if k > 0 {
        FailuresBackOff(next, run[1..], id, k - 1);
        assert FailureTimes(s, run, id)[k] == FailureTimes(next, run[1..], id)[k - 1];
      }
    } else {
      FailuresBackOff(next, run[1..], id, k);
    }
  }

  lemma {:induction false} NoFailureAfterEnd(s: System, run: seq<Step>, id: EventId)
    requires Inv(s) && IsRun(s, run) && Ended(s.db, id)
    ensures FailureTimes(s, run, id) == []
    decreases |run|
  {
    hide Apply, MoveOf, Enabled, Inv, Ended;
    if run != [] {
      EndedStays(s, run[0], id);
      NoFailureAfterEnd(Apply(s, run[0]), run[1..], id);
    }
  }

  lemma EndedStays(s: System, step: Step, id: EventId)
    requires Inv(s) && Enabled(s, step) && Ended(s.db, id)
    ensures Inv(Apply(s, step)) && Ended(Apply(s, step).db, id) && !MoveOf(s, step, id).Fails?
  {
    assert InvAt(s, id);
    forall i: EventId ensures InvAt(Apply(s, step), i) { StepInvAt(s, step, i); }
    StepMoves(s, step, id);
    hide Apply, MoveOf, Enabled, Inv;
  }

  /** The k-th failure of an event comes at least 2^k - 2 seconds after its first. */
  lemma {:induction false} BackoffBetweenFailures(s: System, run: seq<Step>, id: EventId, k: nat)
    requires Inv(s) && IsRun(s, run) && Attempts(s.db, id) == 0
    requires 1 <= k <= |FailureTimes(s, run, id)|
    ensures FailureTimes(s, run, id)[k - 1] - FailureTimes(s, run, id)[0] >= (Pow2(k) - 2) * SECOND
    decreases |run|
  {
    hide Apply, MoveOf, Enabled, Inv, Ended, Attempts, EarliestFailure;
    BackoffStep(s, run[0], id);
    var next := Apply(s, run[0]);
    if Ended(next.db, id) {
      NoFailureAfterEnd(next, run[1..], id);
      assert Pow2(1) == 2;
    } else if MoveOf(s, run[0], id).Fails? {
      assert Pow2(1) == 2 && Pow2(2) == 4;
      if k > 1 {
        FailuresBackOff(next, run[1..], id, k - 2);
        assert FailureTimes(s, run, id)[k - 1] == FailureTimes(next, run[1..], id)[k - 2];
      }
    } else {
      BackoffBetweenFailures(next, run[1..], id, k);
    }
  }
}
