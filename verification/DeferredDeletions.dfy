/** Export objects are deleted by transaction hooks: erasure queues them on the session, the end
    of the root transaction deletes what is queued, and any rollback empties the queue. Closing a
    session ends an open transaction without a rollback event, so it deletes without committing. */
module DeferredDeletions {
  import opened Common
  import opened Records
  import opened ErasureTables
  import opened ErasureLaws
  import opened Erasure

  /** One object to delete, and the artifact row that names it. */
  datatype Deletion = Deletion(artifact: RowId, backend: Val, key: Val)

  /** What the session carries: the queue, whether its hooks are installed, and the objects
      removed from storage so far. */
  datatype Hooks = Hooks(queue: seq<Deletion>, registered: bool, removed: seq<Deletion>)

  function Registered(h: Hooks, deletions: seq<Deletion>): Hooks {
    if deletions == [] then h else h.(queue := h.queue + deletions, registered := true)
  }

  function Discarded(h: Hooks): Hooks { if h.registered then h.(queue := []) else h }

  /** The deletions that storage does not refuse. */
  function {:induction false} Deletable(deletions: seq<Deletion>, refused: set<Deletion>): seq<Deletion> {
    if deletions == [] then []
    else
      var last := deletions[|deletions| - 1];
      Deletable(deletions[..|deletions| - 1], refused) + if last in refused then [] else [last]
  }

  function Ended(h: Hooks, isRoot: bool, refused: set<Deletion>): Hooks {
    if isRoot && h.registered then h.(queue := [], removed := h.removed + Deletable(h.queue, refused)) else h
  }

  lemma {:induction false} DeletableIn(deletions: seq<Deletion>, refused: set<Deletion>, d: Deletion)
    ensures d in Deletable(deletions, refused) <==> d in deletions && d !in refused
  {
    if deletions != [] {
      DeletableIn(deletions[..|deletions| - 1], refused, d);
    }
  }

  /** The hooks of one session. */
  class SessionHooks {
    var pending: Option<seq<Deletion>>
    var hooksRegistered: bool
    var removed: seq<Deletion>

    ghost function State(): Hooks
      reads this
    {
      Hooks(if pending.Some? then pending.value else [], hooksRegistered, removed)
    }

    constructor ()
      ensures State() == Hooks([], false, [])
    {
      pending, hooksRegistered, removed := None, false, [];
    }

    method DeferExportArtifactObjectDeletions(deletions: seq<Deletion>)
      modifies this
      ensures State() == Registered(old(State()), deletions)
    {
      if deletions == [] {
        return;
      }
      var waiting := if pending.Some? then pending.value else [];
      pending := Some(waiting + deletions);
      if hooksRegistered {
        return;
      }
      hooksRegistered := true;
    }

    /** A transaction ended; `refused` are the deletions for which storage raises. */
    method AfterTransactionEnd(isRoot: bool, refused: set<Deletion>)
      modifies this
      ensures State() == Ended(old(State()), isRoot, refused)
    {
      if !isRoot || !hooksRegistered {
        return;
      }
      var deletions := if pending.Some? then pending.value else [];
      pending := None;
      for i := 0 to |deletions|
        invariant pending == None && hooksRegistered == old(hooksRegistered)
        invariant removed == old(removed) + Deletable(deletions[..i], refused)
      {
        assert deletions[..i + 1][..i] == deletions[..i];
        if deletions[i] !in refused {
          removed := removed + [deletions[i]];
        }
      }
      assert deletions[..|deletions|] == deletions;
    }

    /** A rollback happened, of the root or of a savepoint. */
    method AfterRollback()
      modifies this
      ensures State() == Discarded(old(State()))
    {
      if hooksRegistered {
        pending := None;
      }
    }
  }

  /* ---- Sessions ---- */

  /** A session: what each open transaction would roll back to, the export rows as the session
      sees them and as they are committed, and the hooks. */
  datatype Session = Session(frames: seq<Table>, current: Table, committed: Table, hooks: Hooks)

  datatype Step =
    | Begin
    | BeginNested
    | Erase(subject: UserId, deletions: seq<Deletion>)
    | Write(artifact: RowId, row: Row)
    | Release
    | RollbackSavepoint
    | Commit(refused: set<Deletion>)
    | RollbackAll
    | Close(refused: set<Deletion>)

  function Deletions(t: Table, subject: UserId): set<Deletion> {
    set k | k in t && HasObject(t[k], subject) :: Deletion(k, Get(t[k], STORAGE_BACKEND), Get(t[k], STORAGE_KEY))
  }

  /** There is one deletion for each export made for the subject that still has an object. */
  lemma DeletionsExactly(t: Table, subject: UserId, d: Deletion)
    ensures d in Deletions(t, subject) <==>
      && d.artifact in t
      && (Holds(t[d.artifact], SUBJECT_USER_ID, subject) || Holds(t[d.artifact], REQUESTER_USER_ID, subject))
      && STORAGE_KEY in t[d.artifact] && t[d.artifact][STORAGE_KEY] == d.key && d.key != Nil
      && d.backend == Get(t[d.artifact], STORAGE_BACKEND)
  {
    assert SUBJECT_USER_ID in EXPORT_LINKS && REQUESTER_USER_ID in EXPORT_LINKS;
  }

  /** The erasure provider queues one deletion per stored object of the subject, in some order;
      other work of the session leaves rows alone whose object it has queued. */
  ghost predicate Enabled(s: Session, t: Step) {
    match t
    case Begin => s.frames == []
    case BeginNested => s.frames != []
    case Erase(subject, deletions) =>
      && s.frames != [] && Distinct(deletions) && Elements(deletions) == Deletions(s.current, subject)
      && !ExportInProgress(s.current, subject) && !UnknownBackend(s.current, subject)
    case Write(artifact, _) => s.frames != [] && forall d :: d in s.hooks.queue ==> d.artifact != artifact
    case Release => |s.frames| > 1
    case RollbackSavepoint => |s.frames| > 1
    case Commit(_) => s.frames != []
    case RollbackAll => s.frames != []
    case Close(_) => s.frames != []
  }

  function Apply(s: Session, t: Step): Session {
    match t
    case Begin => s.(frames := [s.committed], current := s.committed)
    case BeginNested => s.(frames := s.frames + [s.current])
    case Erase(subject, deletions) =>
      s.(current := After(ExportJob(subject), s.current), hooks := Registered(s.hooks, deletions))
    case Write(artifact, row) => s.(current := s.current[artifact := row])
    case Release =>
      if s.frames == [] then s
      else s.(frames := s.frames[..|s.frames| - 1], hooks := Ended(s.hooks, false, {}))
    case RollbackSavepoint =>
      if s.frames == [] then s
      else s.(frames := s.frames[..|s.frames| - 1], current := s.frames[|s.frames| - 1],
              hooks := Ended(Discarded(s.hooks), false, {}))
    case Commit(refused) =>
      s.(frames := [], committed := s.current, hooks := Ended(s.hooks, true, refused))
    case RollbackAll =>
      s.(frames := [], current := s.committed, hooks := Ended(Discarded(s.hooks), true, {}))
    case Close(refused) =>
      s.(frames := [], current := s.committed, hooks := Ended(s.hooks, true, refused))
  }

  ghost predicate {:induction false} IsRun(s: Session, run: seq<Step>)
    decreases |run|
  {
    run == [] || (IsRun(s, run[..|run| - 1]) && Enabled(Final(s, run[..|run| - 1]), run[|run| - 1]))
  }

  ghost function {:induction false} Final(s: Session, run: seq<Step>): Session
    decreases |run|
  {
    if run == [] then s else Apply(Final(s, run[..|run| - 1]), run[|run| - 1])
  }

  ghost predicate Fresh(s: Session) { s.frames == [] && s.hooks == Hooks([], false, []) }

  /* ---- Deleted objects and cancelled rows ---- */

  ghost predicate Cancelled(t: Table, d: Deletion) {
    && d.artifact in t && Get(t[d.artifact], STATUS) == Tagged(CANCELLED)
    && Get(t[d.artifact], STORAGE_KEY) == d.key && Get(t[d.artifact], STORAGE_BACKEND) == d.backend
  }

  /** Whatever is queued belongs to the open transaction, and its row is cancelled there. */
  ghost predicate QueueInv(s: Session) {
    && (s.hooks.queue != [] ==> s.hooks.registered && s.frames != [])
    && (forall d :: d in s.hooks.queue ==> Cancelled(s.current, d))
  }

  lemma ErasedRowIsCancelled(t: Table, subject: UserId, d: Deletion)
    requires d in Deletions(t, subject)
    ensures Cancelled(After(ExportJob(subject), t), d)
  {
    hide MinimisedExport;
    ExportRowMeaning(t[d.artifact], subject, STATUS);
  }

  lemma CancelledStaysCancelled(t: Table, subject: UserId, d: Deletion)
    requires Cancelled(t, d)
    ensures Cancelled(After(ExportJob(subject), t), d)
  {
    hide MinimisedExport;
    ExportRowMeaning(t[d.artifact], subject, STATUS);
  }

  lemma QueueInvKept(s: Session, t: Step)
    requires QueueInv(s) && Enabled(s, t)
    ensures QueueInv(Apply(s, t))
  {
    hide Cancelled, Deletions, After;
    match t
    case Erase(subject, deletions) =>
      forall d | d in Apply(s, t).hooks.queue ensures Cancelled(Apply(s, t).current, d) {
        if d in s.hooks.queue {
          CancelledStaysCancelled(s.current, subject, d);
        } else {
          assert d in Elements(deletions);
          ErasedRowIsCancelled(s.current, subject, d);
        }
      }
    case Write(artifact, row) =>
      forall d | d in s.hooks.queue ensures Cancelled(s.current[artifact := row], d) {
        OtherRowKept(s.current, d, artifact, row);
      }
    case _ =>
  }

  lemma OtherRowKept(t: Table, d: Deletion, artifact: RowId, row: Row)
    requires Cancelled(t, d) && d.artifact != artifact
    ensures Cancelled(t[artifact := row], d)
  {}

  lemma {:induction false} RunQueueInv(s: Session, run: seq<Step>)
    requires Fresh(s) && IsRun(s, run)
    ensures QueueInv(Final(s, run))
    decreases |run|
  {
    if run != [] {
      RunQueueInv(s, run[..|run| - 1]);
      QueueInvKept(Final(s, run[..|run| - 1]), run[|run| - 1]);
    }
  }

  /** What a step removes from storage. */
  ghost function Removes(s: Session, t: Step): seq<Deletion>
    requires s.hooks.removed <= Apply(s, t).hooks.removed
  {
    Apply(s, t).hooks.removed[|s.hooks.removed|..]
  }

  lemma OnlyEndsRemove(s: Session, t: Step)
    ensures s.hooks.removed <= Apply(s, t).hooks.removed
    ensures Removes(s, t)
            == if (t.Commit? || t.Close?) && s.hooks.registered then Deletable(s.hooks.queue, t.refused) else []
  {
    hide After;
    if (t.Commit? || t.Close?) && s.hooks.registered {
      assert Apply(s, t).hooks.removed == s.hooks.removed + Deletable(s.hooks.queue, t.refused);
    } else {
      assert Apply(s, t).hooks.removed == s.hooks.removed;
    }
  }

  lemma RemovesExactly(s: Session, t: Step, d: Deletion)
    requires QueueInv(s)
    ensures s.hooks.removed <= Apply(s, t).hooks.removed
    ensures d in Removes(s, t) <==> (t.Commit? || t.Close?) && d in s.hooks.queue && d !in t.refused
  {
    hide After, Apply, Cancelled;
    OnlyEndsRemove(s, t);
    if t.Commit? || t.Close? {
      DeletableIn(s.hooks.queue, t.refused, d);
    }
  }

  /** In every run of nested begins, releases, commits, rollbacks and closes, storage loses an
      object only when the root transaction is committed or the session is closed, and only one
      that was queued. What a commit removes it also commits as cancelled, with the object's key. */
  lemma DeletedOnlyAtRootEnd(s: Session, run: seq<Step>, t: Step, d: Deletion)
    requires Fresh(s) && IsRun(s, run) && Enabled(Final(s, run), t)
    ensures var before, after := Final(s, run), Apply(Final(s, run), t);
      && before.hooks.removed <= after.hooks.removed
      && (d in Removes(before, t) <==> (t.Commit? || t.Close?) && d in before.hooks.queue && d !in t.refused)
      && (d in Removes(before, t) && t.Commit? ==> Cancelled(after.committed, d))
  {
    hide Cancelled, After, Deletions;
    RunQueueInv(s, run);
    RemovesExactly(Final(s, run), t, d);
  }

  /** Whatever a step removes is then committed as cancelled. */
  ghost predicate Covered(s: Session, t: Step) {
    && s.hooks.removed <= Apply(s, t).hooks.removed
    && forall d :: d in Removes(s, t) ==> Cancelled(Apply(s, t).committed, d)
  }

  /** What a root end removes is committed as cancelled exactly when it is no close, or every
      deletion it finds queued and storage accepts was committed as cancelled before. */
  lemma CoveredExactlyWhen(s: Session, run: seq<Step>, t: Step)
    requires Fresh(s) && IsRun(s, run) && Enabled(Final(s, run), t)
    ensures var before := Final(s, run);
      Covered(before, t) <==>
        !t.Close? || forall d :: d in before.hooks.queue && d !in t.refused ==> Cancelled(before.committed, d)
  {
    hide Cancelled, After, Deletions, Removes, Enabled;
    var before := Final(s, run);
    RunQueueInv(s, run);
    OnlyEndsRemove(before, t);
    forall d ensures d in Removes(before, t) <==> (t.Commit? || t.Close?) && d in before.hooks.queue && d !in t.refused {
      RemovesExactly(before, t, d);
    }
  }

  /* ---- Exactly which objects are deleted ---- */

  predicate Drops(t: Step) { t.RollbackSavepoint? || t.RollbackAll? || t.Commit? || t.Close? }

  /** The deletions queued since the last rollback, commit or close, read off the steps alone. */
  ghost function {:induction false} QueuedSince(run: seq<Step>): seq<Deletion>
    decreases |run|
  {
    if run == [] || Drops(run[|run| - 1]) then []
    else QueuedSince(run[..|run| - 1]) + if run[|run| - 1].Erase? then run[|run| - 1].deletions else []
  }

  /** The queue holds what was queued since the last rollback of any level: a savepoint that rolls
      back also forgets what the transaction around it had queued. */
  lemma {:induction false} QueueIsWhatSurvived(s: Session, run: seq<Step>)
    requires Fresh(s) && IsRun(s, run)
    ensures Final(s, run).hooks.queue == QueuedSince(run)
    decreases |run|
  {
    hide After, Deletions, Apply, Enabled, QueueInv;
    if run != [] {
      QueueIsWhatSurvived(s, run[..|run| - 1]);
      RunQueueInv(s, run[..|run| - 1]);
      QueueAfter(Final(s, run[..|run| - 1]), run[|run| - 1]);
    }
  }

  lemma QueueAfter(s: Session, t: Step)
    requires QueueInv(s) && Enabled(s, t)
    ensures Apply(s, t).hooks.queue
            == if Drops(t) then [] else s.hooks.queue + if t.Erase? then t.deletions else []
  {
    hide After, Deletions, Cancelled, ExportInProgress, UnknownBackend;
  }

  /** A commit or a close deletes an object exactly when it was queued after every rollback so far
      and storage accepts the deletion; a rollback deletes nothing. */
  lemma RootEndDeletesExactly(s: Session, run: seq<Step>, t: Step, d: Deletion)
    requires Fresh(s) && IsRun(s, run) && Enabled(Final(s, run), t) && (t.Commit? || t.RollbackAll? || t.Close?)
    ensures Final(s, run).hooks.removed <= Apply(Final(s, run), t).hooks.removed
    ensures d in Removes(Final(s, run), t) <==> !t.RollbackAll? && d in QueuedSince(run) && d !in t.refused
  {
    hide After, Deletions, Apply, Enabled, Cancelled;
    QueueIsWhatSurvived(s, run);
    RunQueueInv(s, run);
    RemovesExactly(Final(s, run), t, d);
  }

  /** Every deletion of a run, at the step that made it, was of an object whose row is committed as
      cancelled by then. */
  ghost predicate {:induction false} AllCovered(s: Session, run: seq<Step>)
    decreases |run|
  {
    run == [] || (AllCovered(s, run[..|run| - 1]) && Covered(Final(s, run[..|run| - 1]), run[|run| - 1]))
  }

  /** Every close finds queued only what an earlier transaction has committed as cancelled. */
  ghost predicate {:induction false} ClosesSafely(s: Session, run: seq<Step>)
    decreases |run|
  {
    run == []
    || (var front, t := run[..|run| - 1], run[|run| - 1];
        && ClosesSafely(s, front)
        && (t.Close? ==> forall d :: d in QueuedSince(front) && d !in t.refused ==> Cancelled(Final(s, front).committed, d)))
  }

  /** The law over whole runs: no object is ever deleted before its row is committed as cancelled
      exactly when no session is closed on deletions still waiting for their commit. */
  lemma {:induction false} AllCoveredExactlyWhen(s: Session, run: seq<Step>)
    requires Fresh(s) && IsRun(s, run)
    ensures AllCovered(s, run) <==> ClosesSafely(s, run)
    decreases |run|
  {
    hide After, Deletions, Apply, Enabled, Cancelled, Covered;
    if run != [] {
      var front := run[..|run| - 1];
      AllCoveredExactlyWhen(s, front);
      CoveredExactlyWhen(s, front, run[|run| - 1]);
      QueueIsWhatSurvived(s, front);
    }
  }

  /** In particular, in every run of begins, commits and rollbacks at any level. */
  lemma {:induction false} WithoutCloseAllCovered(s: Session, run: seq<Step>)
    requires Fresh(s) && IsRun(s, run) && forall i :: 0 <= i < |run| ==> !run[i].Close?
    ensures AllCovered(s, run)
    decreases |run|
  {
    hide After, Deletions, Apply, Enabled, Cancelled, Covered;
    if run != [] {
      var front := run[..|run| - 1];
      WithoutCloseAllCovered(s, front);
      CoveredExactlyWhen(s, front, run[|run| - 1]);
    }
  }

  function Untouched(t: Table): Session { Session([], t, t, Hooks([], false, [])) }

  lemma ErasureOpen(t: Table, subject: UserId, deletions: seq<Deletion>)
    requires Distinct(deletions) && Elements(deletions) == Deletions(t, subject) && deletions != []
    requires !ExportInProgress(t, subject) && !UnknownBackend(t, subject)
    ensures var run := [Begin, Erase(subject, deletions)];
      && IsRun(Untouched(t), run)
      && Final(Untouched(t), run) == Session([t], After(ExportJob(subject), t), t, Hooks(deletions, true, []))
  {
    hide After, Deletions, ExportInProgress, UnknownBackend;
    var s := Untouched(t);
    var r1: seq<Step> := [Begin];
    var r2 := r1 + [Erase(subject, deletions)];
    assert r1[..0] == [] && r2[..1] == r1 && r2 == [Begin, Erase(subject, deletions)];
    assert IsRun(s, []) && Final(s, []) == s;
    assert IsRun(s, r1) && Final(s, r1) == Apply(s, Begin);
    assert [] + deletions == deletions;
  }

  /** An erasure whose session is closed without a commit: the object is gone, and its row is as
      it was, not cancelled. */
  lemma CloseDeletesUncommitted(t: Table, subject: UserId, deletions: seq<Deletion>, d: Deletion)
    requires Distinct(deletions) && Elements(deletions) == Deletions(t, subject) && d in deletions
    requires !ExportInProgress(t, subject) && !UnknownBackend(t, subject)
    requires Get(RowOf(t, d.artifact), STATUS) != Tagged(CANCELLED)
    ensures var run := [Begin, Erase(subject, deletions), Close({})];
      && Fresh(Untouched(t)) && IsRun(Untouched(t), run) && Final(Untouched(t), run).committed == t
      && d in Final(Untouched(t), run).hooks.removed && !Cancelled(t, d) && !AllCovered(Untouched(t), run)
  {
    hide After, Deletions, ExportInProgress, UnknownBackend, Removes, Deletable, Elements, Distinct;
    var s, open := Untouched(t), [Begin, Erase(subject, deletions)];
    ErasureOpen(t, subject, deletions);
    var run := open + [Close({})];
    assert run[..2] == open && run == [Begin, Erase(subject, deletions), Close({})];
    var before := Final(s, open);
    DeletableIn(deletions, {}, d);
    assert [] + Deletable(deletions, {}) == Deletable(deletions, {});
    CoveredExactlyWhen(s, open, Close({}));
  }

  /** A savepoint opened and rolled back after the erasure is enough: the row is committed as
      cancelled, and its object stays in storage. */
  lemma SavepointRollbackKeepsObjects(t: Table, subject: UserId, deletions: seq<Deletion>, d: Deletion)
    requires Distinct(deletions) && Elements(deletions) == Deletions(t, subject) && d in deletions
    requires !ExportInProgress(t, subject) && !UnknownBackend(t, subject)
    ensures var s := Session([], t, t, Hooks([], false, []));
      var run := [Begin, Erase(subject, deletions), BeginNested, RollbackSavepoint, Commit({})];
      Fresh(s) && IsRun(s, run) && Cancelled(Final(s, run).committed, d) && Final(s, run).hooks.removed == []
  {
    hide Cancelled, After, Deletions, ExportInProgress, UnknownBackend;
    var s := Session([], t, t, Hooks([], false, []));
    var r1: seq<Step> := [Begin];
    var r2 := r1 + [Erase(subject, deletions)];
    var r3 := r2 + [BeginNested];
    var r4 := r3 + [RollbackSavepoint];
    var r5 := r4 + [Commit({})];
    assert r1[..0] == [] && r2[..1] == r1 && r3[..2] == r2 && r4[..3] == r3 && r5[..4] == r4;
    var s1 := Apply(s, Begin);
    var s2 := Apply(s1, Erase(subject, deletions));
    assert IsRun(s, r1) && Final(s, r1) == s1 by { assert IsRun(s, []) && Final(s, []) == s; }
    assert IsRun(s, r2) && Final(s, r2) == s2;
    assert IsRun(s, r3) && IsRun(s, r4) && IsRun(s, r5);
    assert d in Elements(deletions);
    ErasedRowIsCancelled(t, subject, d);
    assert r5 == [Begin, Erase(subject, deletions), BeginNested, RollbackSavepoint, Commit({})];
  }
}
