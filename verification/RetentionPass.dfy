/** One bounded retention pass over export artifacts: transactions that list stored objects, the
    deletion of those objects between the transactions, and the clearing of metadata afterwards.
    The export artifact service is taken by its contract: a listing returns at most as many
    objects as it is asked for, and clearing says whether it did anything. */
module RetentionPass {
  import opened Common

  /** A stored object to purge, with the artifact it belongs to. */
  datatype Purge = Purge(artifact: nat, backend: string, key: string)

  /** What the pass meets: the numbers of rows due in the four database steps, the backlogs of the
      service, the objects storage refuses to delete, and those whose metadata can still be
      cleared. */
  datatype World = World(
    dueInvites: nat, dueEvents: nat, dueAuditEvents: nat, dueKeys: nat,
    cancelled: seq<Purge>, failed: seq<Purge>, ready: seq<nat>, expired: seq<Purge>,
    refused: set<Purge>, clearable: set<Purge>)

  datatype Action = Begin | Commit(listed: seq<Purge>) | Delete(purge: Purge) | Clear(purge: Purge)

  datatype Summary = Summary(
    expiredExportArtifacts: nat, anonymisedInvites: nat, scrubbedOutboxEvents: nat,
    minimisedAuditEvents: nat, cleanedIdempotencyKeys: nat)

  function Total(s: Summary): nat {
    s.expiredExportArtifacts + s.anonymisedInvites + s.scrubbedOutboxEvents + s.minimisedAuditEvents
    + s.cleanedIdempotencyKeys
  }

  datatype Problem = BAD_LIMIT | PurgeFailed(purge: Purge)

  function Page<T>(backlog: seq<T>, limit: int): seq<T> {
    if limit <= 0 then [] else if |backlog| <= limit then backlog else backlog[..limit]
  }

  lemma NothingToList<T>(backlog: seq<T>, limit: int)
    ensures limit <= 0 ==> Page(backlog, limit) == []
  {}

  function {:induction false} Deleted(purges: seq<Purge>, refused: set<Purge>): seq<Purge> {
    if purges == [] then []
    else
      var last := purges[|purges| - 1];
      Deleted(purges[..|purges| - 1], refused) + if last in refused then [] else [last]
  }

  function {:induction false} Failures(purges: seq<Purge>, refused: set<Purge>): seq<Purge> {
    if purges == [] then []
    else
      var last := purges[|purges| - 1];
      Failures(purges[..|purges| - 1], refused) + if last in refused then [last] else []
  }

  function {:induction false} Cleared(purges: seq<Purge>, clearable: set<Purge>): (n: nat)
    ensures n <= |purges|
  {
    if purges == [] then 0
    else Cleared(purges[..|purges| - 1], clearable) + if purges[|purges| - 1] in clearable then 1 else 0
  }

  function {:induction false} Without(purges: seq<Purge>, artifacts: seq<nat>): seq<Purge> {
    if purges == [] then []
    else
      var last := purges[|purges| - 1];
      Without(purges[..|purges| - 1], artifacts) + if last.artifact in artifacts then [] else [last]
  }

  function Deletes(purges: seq<Purge>): seq<Action> { seq(|purges|, i requires 0 <= i < |purges| => Delete(purges[i])) }

  function Clears(purges: seq<Purge>): seq<Action> { seq(|purges|, i requires 0 <= i < |purges| => Clear(purges[i])) }

  /* ---- The pass ---- */

  class RetentionRunner {
    var log: seq<Action>

    constructor ()
      ensures log == []
    {
      log := [];
    }

    /** Deletes outside any transaction; a refusal is recorded and the rest goes on. */
    method DeleteExportStoragePurges(purges: seq<Purge>, world: World)
      returns (deleted: seq<Purge>, failures: seq<Purge>)
      modifies this
      ensures log == old(log) + Deletes(purges)
      ensures deleted == Deleted(purges, world.refused) && failures == Failures(purges, world.refused)
    {
      deleted, failures := [], [];
      for i := 0 to |purges|
        invariant log == old(log) + Deletes(purges[..i])
        invariant deleted == Deleted(purges[..i], world.refused) && failures == Failures(purges[..i], world.refused)
      {
        assert purges[..i + 1][..i] == purges[..i] && Deletes(purges[..i + 1]) == Deletes(purges[..i]) + [Delete(purges[i])];
        log := log + [Delete(purges[i])];
        if purges[i] in world.refused {
          failures := failures + [purges[i]];
          continue;
        }
        deleted := deleted + [purges[i]];
      }
      assert purges[..|purges|] == purges;
    }

    method ClearExportStoragePurges(purges: seq<Purge>, world: World) returns (cleared: nat)
      modifies this
      ensures log == old(log) + Clears(purges)
      ensures cleared == Cleared(purges, world.clearable)
    {
      cleared := 0;
      for i := 0 to |purges|
        invariant log == old(log) + Clears(purges[..i])
        invariant cleared == Cleared(purges[..i], world.clearable)
      {
        assert purges[..i + 1][..i] == purges[..i] && Clears(purges[..i + 1]) == Clears(purges[..i]) + [Clear(purges[i])];
        log := log + [Clear(purges[i])];
        if purges[i] in world.clearable {
          cleared := cleared + 1;
        }
      }
      assert purges[..|purges|] == purges;
    }

    method RunPrivacyRetentionPass(world: World, limit: int, dryRun: bool) returns (r: Result<Summary, Problem>)
      requires log == []
      modifies this
      ensures limit < 1 ==> r == Failure(BAD_LIMIT) && log == []
      ensures limit >= 1 && dryRun ==> r == Success(Summarised(world, limit, Previewed(world, limit))) && log == []
      ensures limit >= 1 && !dryRun ==> r == Outcome(world, limit) && log == Actions(world, limit)
      ensures r.Success? ==>
        && limit >= 1
        && r.value.anonymisedInvites == Min(limit, world.dueInvites)
        && r.value.scrubbedOutboxEvents == Min(limit, world.dueEvents)
        && r.value.minimisedAuditEvents == Min(limit, world.dueAuditEvents)
        && r.value.cleanedIdempotencyKeys == Min(limit, world.dueKeys)
      ensures r.Success? && dryRun ==>
        r.value.expiredExportArtifacts
        == Min(limit, |world.cancelled| + |world.failed| + |world.ready| + |world.expired|)
    {
      if limit < 1 {
        return Failure(BAD_LIMIT);
      }
      if dryRun {
        var previewed := CountExpiredReadyArtifacts(world, limit);
        return Success(Summarised(world, limit, previewed));
      }
      var processed, purgeFailures := RunPhases(world, limit);
      var summary := Summarised(world, limit, processed);
      if Total(summary) == 0 && purgeFailures != [] {
        return Failure(PurgeFailed(purgeFailures[0]));
      }
      return Success(summary);
    }

    /** The dry run's count: the four listings one after the other, each with the room the earlier
        ones left, and nothing deleted or cleared. */
    method CountExpiredReadyArtifacts(world: World, limit: int) returns (n: nat)
      requires limit >= 1
      ensures n == Previewed(world, limit)
    {
      hide Without;
      var remaining := limit;
      var cancelled := Page(world.cancelled, remaining);
      remaining := remaining - |cancelled|;
      if remaining <= 0 { return |cancelled|; }
      var failed := Page(world.failed, remaining);
      remaining := remaining - |failed|;
      if remaining <= 0 { return |cancelled| + |failed|; }
      var ready := Page(world.ready, remaining);
      remaining := remaining - |ready|;
      if remaining <= 0 { return |cancelled| + |failed| + |ready|; }
      var expired := Page(world.expired, remaining);
      return |cancelled| + |failed| + |ready| + |expired|;
    }

    /** Delete what a transaction listed; then, in the next transaction, clear what was deleted. */
    method DeleteThenClear(purges: seq<Purge>, world: World) returns (cleared: nat, failures: seq<Purge>)
      modifies this
      ensures log == old(log) + Deletes(purges) + [Begin] + Clears(Deleted(purges, world.refused))
      ensures cleared == Cleared(Deleted(purges, world.refused), world.clearable)
      ensures failures == Failures(purges, world.refused)
    {
      hide Deletes, Clears, Deleted, Cleared, Failures;
      var deleted;
      deleted, failures := DeleteExportStoragePurges(purges, world);
      log := log + [Begin];
      cleared := ClearExportStoragePurges(deleted, world);
    }

    method RunPhases(world: World, limit: int) returns (processed: nat, purgeFailures: seq<Purge>)
      requires log == []
      modifies this
      ensures log == Actions(world, limit)
      ensures processed == Processed(world, limit) && purgeFailures == AllFailures(world, limit)
    {
      hide Page, Deletes, Clears, Deleted, Cleared, Failures, Without;
      var cancelled := Page(world.cancelled, limit);
      assert cancelled == ListedCancelled(world, limit);
      log := [Begin] + [Commit(cancelled)];
      processed, purgeFailures := DeleteThenClear(cancelled, world);
      assert processed == AfterCancelled(world, limit);
      hide AfterCancelled;

      NothingToList(world.failed, limit - processed);
      var failed := if limit - processed > 0 then Page(world.failed, limit - processed) else [];
      assert failed == ListedFailed(world, limit);
      log := log + [Commit(failed)];
      var cleared, failures := DeleteThenClear(failed, world);
      purgeFailures := purgeFailures + failures;
      processed := processed + cleared;
      assert processed == AfterFailed(world, limit);
      hide AfterFailed, ListedFailed, ListedCancelled;

      NothingToList(world.ready, limit - processed);
      var newlyExpired := if limit - processed > 0 then Page(world.ready, limit - processed) else [];
      assert newlyExpired == NewlyExpired(world, limit);
      hide NewlyExpired;
      processed := processed + |newlyExpired|;
      NothingToList(Without(world.expired, newlyExpired), limit - processed);
      var expired := if limit - processed > 0 then Page(Without(world.expired, newlyExpired), limit - processed) else [];
      assert expired == ListedExpired(world, limit);
      hide ListedExpired;
      log := log + [Commit(expired)];
      cleared, failures := DeleteThenClear(expired, world);
      purgeFailures := purgeFailures + failures;
      processed := processed + cleared;
      log := log + [Commit([])];
    }
  }

  /* ---- What the pass does, phase by phase ---- */

  function ListedCancelled(w: World, limit: int): seq<Purge> { Page(w.cancelled, limit) }

  function AfterCancelled(w: World, limit: int): nat {
    Cleared(Deleted(ListedCancelled(w, limit), w.refused), w.clearable)
  }

  function ListedFailed(w: World, limit: int): seq<Purge> { Page(w.failed, limit - AfterCancelled(w, limit)) }

  function AfterFailed(w: World, limit: int): nat {
    AfterCancelled(w, limit) + Cleared(Deleted(ListedFailed(w, limit), w.refused), w.clearable)
  }

  function NewlyExpired(w: World, limit: int): seq<nat> { Page(w.ready, limit - AfterFailed(w, limit)) }

  function ListedExpired(w: World, limit: int): seq<Purge> {
    Page(Without(w.expired, NewlyExpired(w, limit)), limit - AfterFailed(w, limit) - |NewlyExpired(w, limit)|)
  }

  function Processed(w: World, limit: int): nat {
    AfterFailed(w, limit) + |NewlyExpired(w, limit)| + Cleared(Deleted(ListedExpired(w, limit), w.refused), w.clearable)
  }

  function AllFailures(w: World, limit: int): seq<Purge> {
    Failures(ListedCancelled(w, limit), w.refused) + Failures(ListedFailed(w, limit), w.refused)
    + Failures(ListedExpired(w, limit), w.refused)
  }

  /** A bounded step takes what is due, as far as the limit reaches. */
  function Step(due: nat, limit: int): nat { if limit < 0 then 0 else Min(limit, due) }

  function Summarised(w: World, limit: int, exports: nat): Summary {
    Summary(exports, Step(w.dueInvites, limit), Step(w.dueEvents, limit), Step(w.dueAuditEvents, limit), Step(w.dueKeys, limit))
  }

  /** What a dry run announces for exports. */
  function Previewed(w: World, limit: int): nat {
    Step(|w.cancelled| + |w.failed| + |w.ready| + |w.expired|, limit)
  }

  function Outcome(w: World, limit: int): Result<Summary, Problem> {
    var summary := Summarised(w, limit, Processed(w, limit));
    if Total(summary) == 0 && AllFailures(w, limit) != [] then Failure(PurgeFailed(AllFailures(w, limit)[0]))
    else Success(summary)
  }

  function Actions(w: World, limit: int): seq<Action> {
    [Begin] + [Commit(ListedCancelled(w, limit))] + Deletes(ListedCancelled(w, limit))
    + [Begin] + Clears(Deleted(ListedCancelled(w, limit), w.refused)) + [Commit(ListedFailed(w, limit))]
    + Deletes(ListedFailed(w, limit))
    + [Begin] + Clears(Deleted(ListedFailed(w, limit), w.refused)) + [Commit(ListedExpired(w, limit))]
    + Deletes(ListedExpired(w, limit))
    + [Begin] + Clears(Deleted(ListedExpired(w, limit), w.refused)) + [Commit([])]
  }

  /* ---- The bounds ---- */

  lemma {:induction false} DeletedIsNotLonger(purges: seq<Purge>, refused: set<Purge>)
    ensures |Deleted(purges, refused)| <= |purges|
  {
    if purges != [] {
      DeletedIsNotLonger(purges[..|purges| - 1], refused);
    }
  }

  /** A pass reports at most `limit` exports over its three phases together. */
  lemma ReportsAtMostLimit(w: World, limit: int)
    requires limit >= 1
    ensures Processed(w, limit) <= limit
    ensures Outcome(w, limit).Success? ==> Outcome(w, limit).value.expiredExportArtifacts <= limit
  {
    DeletedIsNotLonger(ListedCancelled(w, limit), w.refused);
    DeletedIsNotLonger(ListedFailed(w, limit), w.refused);
    DeletedIsNotLonger(ListedExpired(w, limit), w.refused);
  }

  lemma {:induction false} WithoutIsNotLonger(purges: seq<Purge>, artifacts: seq<nat>)
    ensures |Without(purges, artifacts)| <= |purges|
  {
    if purges != [] {
      WithoutIsNotLonger(purges[..|purges| - 1], artifacts);
    }
  }

  lemma {:induction false} NothingExcluded(purges: seq<Purge>, artifacts: seq<nat>)
    requires forall i :: 0 <= i < |purges| ==> purges[i].artifact !in artifacts
    ensures Without(purges, artifacts) == purges
  {
    if purges != [] {
      var front, last := purges[..|purges| - 1], purges[|purges| - 1];
      NothingExcluded(front, artifacts);
      assert purges == front + [last] && last.artifact !in artifacts;
    }
  }

  lemma {:induction false} AllDeleted(purges: seq<Purge>, refused: set<Purge>, clearable: set<Purge>)
    requires forall p :: p in purges ==> p !in refused && p in clearable
    ensures Deleted(purges, refused) == purges && Cleared(purges, clearable) == |purges|
  {
    if purges != [] {
      var front := purges[..|purges| - 1];
      AllDeleted(front, refused, clearable);
      assert purges == front + [purges[|purges| - 1]];
    }
  }

  /** A dry run announces exactly what the database steps of a pass then change, and at least as
      many exports as the pass reports. */
  lemma DryRunBoundsPass(w: World, limit: int)
    requires limit >= 1
    ensures Processed(w, limit) <= Previewed(w, limit)
    ensures Outcome(w, limit).Success? ==>
      var announced, done := Summarised(w, limit, Previewed(w, limit)), Outcome(w, limit).value;
      done == announced.(expiredExportArtifacts := done.expiredExportArtifacts)
      && done.expiredExportArtifacts <= announced.expiredExportArtifacts
  {
    hide Deleted, Cleared, Without;
    DeletedIsNotLonger(ListedCancelled(w, limit), w.refused);
    DeletedIsNotLonger(ListedFailed(w, limit), w.refused);
    DeletedIsNotLonger(ListedExpired(w, limit), w.refused);
    WithoutIsNotLonger(w.expired, NewlyExpired(w, limit));
  }

  /** And exactly as many, when storage refuses nothing, all metadata can be cleared, and no ready
      export is among the expired ones. */
  lemma DryRunIsExact(w: World, limit: int)
    requires limit >= 1
    requires forall p :: p in w.cancelled + w.failed + w.expired ==> p !in w.refused && p in w.clearable
    requires forall p :: p in w.expired ==> p.artifact !in w.ready
    ensures Processed(w, limit) == Previewed(w, limit)
  {
    hide Deleted, Cleared, Without;
    var c, f, x := ListedCancelled(w, limit), ListedFailed(w, limit), ListedExpired(w, limit);
    PageIn(w.cancelled, limit);
    AllDeleted(c, w.refused, w.clearable);
    PageIn(w.failed, limit - |c|);
    AllDeleted(f, w.refused, w.clearable);
    PageIn(w.ready, limit - |c| - |f|);
    NothingExcluded(w.expired, NewlyExpired(w, limit));
    PageIn(w.expired, limit - |c| - |f| - |NewlyExpired(w, limit)|);
    AllDeleted(x, w.refused, w.clearable);
  }

  lemma PageIn<T>(backlog: seq<T>, limit: int)
    ensures forall x :: x in Page(backlog, limit) ==> x in backlog
  {}

  ghost function {:induction false} CountDeletes(log: seq<Action>): nat {
    if log == [] then 0 else CountDeletes(log[..|log| - 1]) + if log[|log| - 1].Delete? then 1 else 0
  }

  lemma {:induction false} CountAppend(a: seq<Action>, b: seq<Action>)
    ensures CountDeletes(a + b) == CountDeletes(a) + CountDeletes(b)
  {
    if b == [] {
      assert a + b == a;
    } else {
      assert (a + b)[..|a + b| - 1] == a + b[..|b| - 1];
      CountAppend(a, b[..|b| - 1]);
    }
  }

  lemma {:induction false} CountSegments(purges: seq<Purge>)
    ensures CountDeletes(Deletes(purges)) == |purges| && CountDeletes(Clears(purges)) == 0
    decreases |purges|
  {
    if purges != [] {
      var front := purges[..|purges| - 1];
      assert Deletes(purges)[..|purges| - 1] == Deletes(front) && Clears(purges)[..|purges| - 1] == Clears(front);
      CountSegments(front);
    }
  }

  /** It deletes at most `limit` objects per phase. */
  lemma DeletesAtMostThreePages(w: World, limit: int)
    requires limit >= 1
    ensures CountDeletes(Actions(w, limit))
            == |ListedCancelled(w, limit)| + |ListedFailed(w, limit)| + |ListedExpired(w, limit)|
    ensures CountDeletes(Actions(w, limit)) <= 3 * limit
  {
    var c, f, x := ListedCancelled(w, limit), ListedFailed(w, limit), ListedExpired(w, limit);
    CountPhase([], c, []);
    var p1 := [Begin] + [Commit(c)] + Deletes(c);
    hide CountDeletes, Deletes, Clears, Deleted, Processed, AfterFailed, AfterCancelled, NewlyExpired;
    SingleActions(c, f, x);
    CountAppend([Begin], [Commit(c)]);
    CountAppend([Begin] + [Commit(c)], Deletes(c));
    CountSegments(c);
    CountPhase(p1, Deleted(c, w.refused), f);
    var p2 := p1 + [Begin] + Clears(Deleted(c, w.refused)) + [Commit(f)] + Deletes(f);
    CountPhase(p2, Deleted(f, w.refused), x);
    var p3 := p2 + [Begin] + Clears(Deleted(f, w.refused)) + [Commit(x)] + Deletes(x);
    CountPhase(p3, Deleted(x, w.refused), []);
    var p4 := p3 + [Begin] + Clears(Deleted(x, w.refused)) + [Commit([])];
    assert p4 + Deletes([]) == p4 by { NoDeletes(); }
  }

  lemma NoDeletes()
    ensures Deletes([]) == []
  {}

  lemma SingleActions(c: seq<Purge>, f: seq<Purge>, x: seq<Purge>)
    ensures CountDeletes([Begin]) == 0 && CountDeletes([Commit(c)]) == 0
    ensures CountDeletes([Commit(f)]) == 0 && CountDeletes([Commit(x)]) == 0
  {
    assert [Begin][..0] == [] && [Commit(c)][..0] == [] && [Commit(f)][..0] == [] && [Commit(x)][..0] == [];
  }

  lemma CountPhase(before: seq<Action>, cleared: seq<Purge>, listed: seq<Purge>)
    ensures CountDeletes(before + [Begin] + Clears(cleared) + [Commit(listed)] + Deletes(listed))
            == CountDeletes(before) + |listed|
  {
    hide CountDeletes, Deletes, Clears;
    SingleActions(listed, listed, listed);
    CountSegments(cleared);
    CountSegments(listed);
    CountAppend(before, [Begin]);
    CountAppend(before + [Begin], Clears(cleared));
    CountAppend(before + [Begin] + Clears(cleared), [Commit(listed)]);
    CountAppend(before + [Begin] + Clears(cleared) + [Commit(listed)], Deletes(listed));
  }

  /* ---- The order of actions ---- */

  /** What a log has established so far. */
  datatype Progress = Progress(inTransaction: bool, listed: set<Purge>, deleted: set<Purge>)

  /** An object is deleted outside transactions and only if a committed transaction listed it;
      metadata is cleared inside a transaction and only for an object whose deletion succeeded. */
  ghost predicate Permitted(s: Progress, a: Action, refused: set<Purge>) {
    match a
    case Begin => !s.inTransaction
    case Commit(_) => s.inTransaction
    case Delete(p) => !s.inTransaction && p in s.listed
    case Clear(p) => s.inTransaction && p in s.deleted && p !in refused
  }

  ghost function Advanced(s: Progress, a: Action, refused: set<Purge>): Progress {
    match a
    case Begin => s.(inTransaction := true)
    case Commit(listed) => s.(inTransaction := false, listed := s.listed + Elements(listed))
    case Delete(p) => if p in refused then s else s.(deleted := s.deleted + {p})
    case Clear(_) => s
  }

  ghost function {:induction false} After(s: Progress, log: seq<Action>, refused: set<Purge>): Progress {
    if log == [] then s else Advanced(After(s, log[..|log| - 1], refused), log[|log| - 1], refused)
  }

  ghost predicate {:induction false} Follows(s: Progress, log: seq<Action>, refused: set<Purge>) {
    log == []
    || (Follows(s, log[..|log| - 1], refused)
        && Permitted(After(s, log[..|log| - 1], refused), log[|log| - 1], refused))
  }

  lemma {:induction false} FollowsAppend(s: Progress, a: seq<Action>, b: seq<Action>, refused: set<Purge>)
    ensures After(s, a + b, refused) == After(After(s, a, refused), b, refused)
    ensures Follows(s, a + b, refused) <==> Follows(s, a, refused) && Follows(After(s, a, refused), b, refused)
  {
    if b == [] {
      assert a + b == a;
    } else {
      assert (a + b)[..|a + b| - 1] == a + b[..|b| - 1];
      FollowsAppend(s, a, b[..|b| - 1], refused);
    }
  }

  lemma {:induction false} DeletesFollow(s: Progress, purges: seq<Purge>, refused: set<Purge>)
    requires !s.inTransaction && Elements(purges) <= s.listed
    ensures Follows(s, Deletes(purges), refused)
    ensures After(s, Deletes(purges), refused) == s.(deleted := s.deleted + Elements(Deleted(purges, refused)))
    decreases |purges|
  {
    if purges == [] {
      NothingYet(s, refused);
      NoDeletes();
    } else {
      hide After, Follows, Elements;
      var front, last := purges[..|purges| - 1], purges[|purges| - 1];
      ElementsSnoc(front, last);
      assert purges == front + [last] && Deletes(purges) == Deletes(front) + [Delete(last)];
      DeletesFollow(s, front, refused);
      var now := s.(deleted := s.deleted + Elements(Deleted(front, refused)));
      OneFollows(now, Delete(last), refused);
      FollowsAppend(s, Deletes(front), [Delete(last)], refused);
      ElementsSnoc(Deleted(front, refused), last);
    }
  }

  lemma ElementsSnoc(front: seq<Purge>, last: Purge)
    ensures Elements(front + [last]) == Elements(front) + {last} && Elements(front + []) == Elements(front)
  {
    assert front + [] == front;
  }

  lemma {:induction false} ClearsFollow(s: Progress, purges: seq<Purge>, refused: set<Purge>)
    requires s.inTransaction && Elements(purges) <= s.deleted && Elements(purges) !! refused
    ensures Follows(s, Clears(purges), refused) && After(s, Clears(purges), refused) == s
    decreases |purges|
  {
    if purges == [] {
      NothingYet(s, refused);
    } else {
      hide After, Follows, Elements;
      var front, last := purges[..|purges| - 1], purges[|purges| - 1];
      ElementsSnoc(front, last);
      assert purges == front + [last] && Clears(purges) == Clears(front) + [Clear(last)];
      ClearsFollow(s, front, refused);
      OneFollows(s, Clear(last), refused);
      FollowsAppend(s, Clears(front), [Clear(last)], refused);
    }
  }

  lemma {:induction false} DeletedWithin(purges: seq<Purge>, refused: set<Purge>)
    ensures Elements(Deleted(purges, refused)) == Elements(purges) - refused
    decreases |purges|
  {
    if purges != [] {
      var front, last := purges[..|purges| - 1], purges[|purges| - 1];
      assert Elements(purges) == Elements(front) + {last} by { assert purges == front + [last]; }
      DeletedWithin(front, refused);
      assert Elements(Deleted(purges, refused))
          == Elements(Deleted(front, refused)) + (if last in refused then {} else {last});
    }
  }

  lemma OneFollows(s: Progress, a: Action, refused: set<Purge>)
    ensures Follows(s, [a], refused) <==> Permitted(s, a, refused)
    ensures After(s, [a], refused) == Advanced(s, a, refused)
  {
    assert [a][..0] == [];
  }

  /** One phase: clear what the phase before deleted, commit the next listing, delete from it. */
  lemma PhaseFollows(s: Progress, log: seq<Action>, earlier: seq<Purge>, listed: seq<Purge>, refused: set<Purge>)
    requires Follows(s, log, refused)
    requires var now := After(s, log, refused);
      !now.inTransaction && Elements(Deleted(earlier, refused)) <= now.deleted
    ensures var phase := log + [Begin] + Clears(Deleted(earlier, refused)) + [Commit(listed)] + Deletes(listed);
      && Follows(s, phase, refused) && !After(s, phase, refused).inTransaction
      && Elements(Deleted(listed, refused)) <= After(s, phase, refused).deleted
  {
    hide Follows, After, Deletes, Clears, Deleted, Permitted;
    var now := After(s, log, refused);
    var clears := Deleted(earlier, refused);
    var s1 := Advanced(now, Begin, refused);
    var s2 := Advanced(s1, Commit(listed), refused);
    BeginPermitted(now, refused);
    OneFollows(now, Begin, refused);
    FollowsAppend(s, log, [Begin], refused);
    DeletedWithin(earlier, refused);
    ClearsFollow(s1, clears, refused);
    FollowsAppend(s, log + [Begin], Clears(clears), refused);
    CommitPermitted(s1, listed, refused);
    OneFollows(s1, Commit(listed), refused);
    FollowsAppend(s, log + [Begin] + Clears(clears), [Commit(listed)], refused);
    DeletesFollow(s2, listed, refused);
    FollowsAppend(s, log + [Begin] + Clears(clears) + [Commit(listed)], Deletes(listed), refused);
  }

  lemma BeginPermitted(s: Progress, refused: set<Purge>)
    requires !s.inTransaction
    ensures Permitted(s, Begin, refused)
  {}

  lemma CommitPermitted(s: Progress, listed: seq<Purge>, refused: set<Purge>)
    requires s.inTransaction
    ensures Permitted(s, Commit(listed), refused)
  {}

  /** In every pass each deletion is of an object listed by a transaction that has committed, none
      happens inside a transaction, and metadata is cleared only for objects really deleted. */
  lemma PassFollowsOrder(w: World, limit: int)
    requires limit >= 1
    ensures Follows(Progress(false, {}, {}), Actions(w, limit), w.refused)
  {
    hide Follows, After, Deletes, Clears, Deleted, ListedCancelled, ListedFailed, ListedExpired;
    var s := Progress(false, {}, {});
    var c, f, x := ListedCancelled(w, limit), ListedFailed(w, limit), ListedExpired(w, limit);
    NothingYet(s, w.refused);
    PhaseFollows(s, [], [], c, w.refused);
    var p1 := [] + [Begin] + Clears(Deleted([], w.refused)) + [Commit(c)] + Deletes(c);
    PhaseFollows(s, p1, c, f, w.refused);
    var p2 := p1 + [Begin] + Clears(Deleted(c, w.refused)) + [Commit(f)] + Deletes(f);
    PhaseFollows(s, p2, f, x, w.refused);
    var p3 := p2 + [Begin] + Clears(Deleted(f, w.refused)) + [Commit(x)] + Deletes(x);
    PhaseFollows(s, p3, x, [], w.refused);
    var p4 := p3 + [Begin] + Clears(Deleted(x, w.refused)) + [Commit([])] + Deletes([]);
    NoDeletes();
    assert p1 == [Begin] + [Commit(c)] + Deletes(c);
    assert p4 == Actions(w, limit);
  }

  lemma NothingYet(s: Progress, refused: set<Purge>)
    ensures Follows(s, [], refused) && After(s, [], refused) == s
    ensures Deleted([], refused) == [] && Clears(Deleted([], refused)) == [] && Elements(Deleted([], refused)) == {}
  {}

  /* ---- When a pass fails ---- */

  lemma {:induction false} FailureIn(purges: seq<Purge>, refused: set<Purge>)
    ensures Failures(purges, refused) == [] <==> Elements(purges) !! refused
    decreases |purges|
  {
    if purges != [] {
      var front, last := purges[..|purges| - 1], purges[|purges| - 1];
      assert Elements(purges) == Elements(front) + {last} by { assert purges == front + [last]; }
      FailureIn(front, refused);
    }
  }

  /** A pass raises exactly when it changed nothing at all and storage refused some object it
      tried to delete; otherwise refusals wait for the next pass. */
  lemma RaisesExactlyWhen(w: World, limit: int)
    ensures Outcome(w, limit).Failure? <==>
      && Total(Summarised(w, limit, Processed(w, limit))) == 0
      && exists p :: p in w.refused && p in ListedCancelled(w, limit) + ListedFailed(w, limit) + ListedExpired(w, limit)
  {
    hide ListedCancelled, ListedFailed, ListedExpired, Processed;
    var c, f, x := ListedCancelled(w, limit), ListedFailed(w, limit), ListedExpired(w, limit);
    FailureIn(c, w.refused);
    FailureIn(f, w.refused);
    FailureIn(x, w.refused);
    if AllFailures(w, limit) != [] {
      assert !(Elements(c) !! w.refused) || !(Elements(f) !! w.refused) || !(Elements(x) !! w.refused);
      var p :| p in w.refused && (p in Elements(c) || p in Elements(f) || p in Elements(x));
      assert p in c + f + x;
    } else {
      forall p | p in w.refused ensures p !in c + f + x {
        assert p !in Elements(c) && p !in Elements(f) && p !in Elements(x);
      }
    }
  }

  function FirstOf<T>(s: seq<T>, limit: nat): seq<T> { if |s| <= limit then s else s[..limit] }

  lemma {:induction false} NothingCleared(purges: seq<Purge>, refused: set<Purge>, clearable: set<Purge>)
    ensures Cleared(Deleted(purges, refused), clearable) == 0 <==> forall p :: p in purges && p !in refused ==> p !in clearable
  {
    if purges != [] {
      var front, last := purges[..|purges| - 1], purges[|purges| - 1];
      assert purges == front + [last];
      NothingCleared(front, refused, clearable);
      if last !in refused {
        assert (Deleted(front, refused) + [last])[..|Deleted(front, refused)|] == Deleted(front, refused);
      } else {
        assert Deleted(front, refused) + [] == Deleted(front, refused);
      }
    }
  }

  /** The same, told from what the pass meets: it raises exactly when no database step has anything
      due, no ready export expires, nothing among the first objects of each backlog can be both
      deleted and cleared, and storage refuses one of those objects. */
  lemma RaisesFromBacklogs(w: World, limit: nat)
    requires limit >= 1
    ensures var first := FirstOf(w.cancelled, limit) + FirstOf(w.failed, limit) + FirstOf(w.expired, limit);
      Outcome(w, limit).Failure? <==>
        && w.dueInvites == 0 && w.dueEvents == 0 && w.dueAuditEvents == 0 && w.dueKeys == 0 && w.ready == []
        && (forall p :: p in first && p !in w.refused ==> p !in w.clearable)
        && exists p :: p in first && p in w.refused
  {
    hide Cleared, Deleted, Failures, Without, ListedCancelled, ListedFailed, ListedExpired, Processed, FirstOf, Outcome,
      Summarised, Total, NewlyExpired, AfterFailed, AfterCancelled;
    var c, f, x := FirstOf(w.cancelled, limit), FirstOf(w.failed, limit), FirstOf(w.expired, limit);
    RaisesExactlyWhen(w, limit);
    NothingDue(w, limit, Processed(w, limit));
    ProcessedNothing(w, limit);
    NothingCleared(c, w.refused, w.clearable);
    NothingCleared(f, w.refused, w.clearable);
    NothingCleared(x, w.refused, w.clearable);
    InThree(c, f, x);
  }

  lemma InThree<T>(a: seq<T>, b: seq<T>, c: seq<T>)
    ensures forall p :: p in a + b + c <==> p in a || p in b || p in c
  {}

  lemma NothingDue(w: World, limit: nat, exports: nat)
    requires limit >= 1
    ensures Total(Summarised(w, limit, exports)) == 0
            <==> w.dueInvites == 0 && w.dueEvents == 0 && w.dueAuditEvents == 0 && w.dueKeys == 0 && exports == 0
  {}

  lemma ProcessedNothing(w: World, limit: nat)
    requires limit >= 1
    ensures Processed(w, limit) == 0 <==>
      && w.ready == []
      && Cleared(Deleted(FirstOf(w.cancelled, limit), w.refused), w.clearable) == 0
      && Cleared(Deleted(FirstOf(w.failed, limit), w.refused), w.clearable) == 0
      && Cleared(Deleted(FirstOf(w.expired, limit), w.refused), w.clearable) == 0
    ensures Processed(w, limit) == 0 ==>
      && ListedCancelled(w, limit) == FirstOf(w.cancelled, limit) && ListedFailed(w, limit) == FirstOf(w.failed, limit)
      && ListedExpired(w, limit) == FirstOf(w.expired, limit)
  {
    hide Cleared, Deleted, Without;
    NothingExcluded(w.expired, []);
  }
}
