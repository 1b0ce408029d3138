/** The forced refresh of the signing keys after an unknown key id: a cooldown, a lock with a
    timeout, and any number of token validations interleaving at their awaits. */
module JwksRefresh {
  import opened Common

  /** A signing key as the identity provider publishes it. */
  datatype Key = Key(kid: string, material: nat)

  type KeySet = seq<Key>

  type Caller = nat

  /** What the validations share: the cached keys, the clock reading of the last forced refresh,
      and who holds the lock. */
  datatype Shared = Shared(cache: Option<KeySet>, last: real, holder: Option<Caller>)

  /** Where one validation stands inside the refresh. */
  datatype Phase = Outside | Waiting | Granted | Fetching | Returned(keys: Option<KeySet>) | Raised

  /** How a fetch ends: with keys, with the handled error, or with anything else, which includes
      the cancellation of the validation. */
  datatype Outcome = Fetched(keys: KeySet) | Unauthorised | Broken

  predicate Cooling(sh: Shared, cooldown: real, now: real) { now - sh.last < cooldown }

  function Entered(sh: Shared, cooldown: real, now: real): Phase {
    if Cooling(sh, cooldown, now) then Returned(sh.cache) else Waiting
  }

  function Rechecked(sh: Shared, cooldown: real, now: real): (Shared, Phase) {
    if Cooling(sh, cooldown, now) then (sh.(holder := None), Returned(sh.cache)) else (sh.(last := now), Fetching)
  }

  function Finished(sh: Shared, outcome: Outcome): (Shared, Phase) {
    match outcome
    case Fetched(keys) => (sh.(cache := Some(keys), holder := None), Returned(Some(keys)))
    case Unauthorised => (sh.(holder := None), Returned(sh.cache))
    case Broken => (sh.(holder := None), Raised)
  }

  /** The validator's refresh, one method for each stretch of code between two awaits. */
  class JwtValidator {
    const cooldown: real
    var jwksCache: Option<KeySet>
    var lastForcedJwksRefreshAt: real
    var lockHolder: Option<Caller>

    ghost function State(): Shared
      reads this
    {
      Shared(jwksCache, lastForcedJwksRefreshAt, lockHolder)
    }

    constructor (cooldown: real)
      ensures State() == Shared(None, 0.0, None) && this.cooldown == cooldown
    {
      this.cooldown := cooldown;
      jwksCache, lastForcedJwksRefreshAt, lockHolder := None, 0.0, None;
    }

    /** Up to the wait for the lock. */
    method EnterRefresh(now: real) returns (phase: Phase)
      ensures phase == Entered(State(), cooldown, now)
    {
      if now - lastForcedJwksRefreshAt < cooldown {
        return Returned(jwksCache);
      }
      return Waiting;
    }

    /** The wait for the lock timed out. */
    method TimeOut() returns (phase: Phase)
      ensures phase == Returned(State().cache)
    {
      return Returned(jwksCache);
    }

    /** From the lock to the fetch; the lock goes back unless a fetch follows. */
    method RecheckUnderLock(now: real) returns (phase: Phase)
      requires lockHolder.Some?
      modifies this
      ensures (State(), phase) == Rechecked(old(State()), cooldown, now)
    {
      if now - lastForcedJwksRefreshAt < cooldown {
        phase := Returned(jwksCache);
        lockHolder := None;
        return;
      }
      lastForcedJwksRefreshAt := now;
      phase := Fetching;
    }

    /** From the end of the fetch to the end of the refresh; the lock goes back on every path. */
    method FinishRefresh(outcome: Outcome) returns (phase: Phase)
      requires lockHolder.Some?
      modifies this
      ensures (State(), phase) == Finished(old(State()), outcome)
      ensures lockHolder == None && lastForcedJwksRefreshAt == old(lastForcedJwksRefreshAt)
      ensures match outcome
        case Fetched(keys) => jwksCache == Some(keys) && phase == Returned(Some(keys))
        case Unauthorised => jwksCache == old(jwksCache) && phase == Returned(old(jwksCache))
        case Broken => jwksCache == old(jwksCache) && phase == Raised
    {
      match outcome {
        case Fetched(keys) =>
          jwksCache := Some(keys);
          phase := Returned(jwksCache);
        case Unauthorised =>
          phase := Returned(jwksCache);
        case Broken =>
          phase := Raised;
      }
      lockHolder := None;
    }
  }

  /* ---- All validations together ---- */

  datatype World = World(sh: Shared, phases: map<Caller, Phase>, now: real)

  /** One stretch of one validation, or a plain fetch of an expired key set, which is not forced. */
  datatype Step =
    | Enter(c: Caller, at: real)
    | LockTimeout(c: Caller)
    | CancelWait(c: Caller)
    | Acquire(c: Caller)
    | Recheck(c: Caller, at: real)
    | CancelGranted(c: Caller)
    | Finish(c: Caller, outcome: Outcome)
    | PlainFetch(keys: KeySet)

  function PhaseOf(w: World, c: Caller): Phase { if c in w.phases then w.phases[c] else Outside }

  predicate Critical(p: Phase) { p.Granted? || p.Fetching? }

  /** The clock never runs backwards; the lock is granted to one of the waiting validations. */
  predicate Enabled(w: World, t: Step) {
    match t
    case Enter(c, at) => !Critical(PhaseOf(w, c)) && !PhaseOf(w, c).Waiting? && at >= w.now
    case LockTimeout(c) => PhaseOf(w, c).Waiting?
    case CancelWait(c) => PhaseOf(w, c).Waiting?
    case Acquire(c) => PhaseOf(w, c).Waiting? && w.sh.holder.None?
    case Recheck(c, at) => PhaseOf(w, c).Granted? && at >= w.now
    case CancelGranted(c) => PhaseOf(w, c).Granted?
    case Finish(c, _) => PhaseOf(w, c).Fetching?
    case PlainFetch(_) => true
  }

  function Apply(w: World, cooldown: real, t: Step): World {
    match t
    case Enter(c, at) => w.(phases := w.phases[c := Entered(w.sh, cooldown, at)], now := at)
    case LockTimeout(c) => w.(phases := w.phases[c := Returned(w.sh.cache)])
    case CancelWait(c) => w.(phases := w.phases[c := Raised])
    case Acquire(c) => w.(sh := w.sh.(holder := Some(c)), phases := w.phases[c := Granted])
    case Recheck(c, at) =>
      var (sh, phase) := Rechecked(w.sh, cooldown, at);
      World(sh, w.phases[c := phase], at)
    case CancelGranted(c) => w.(sh := w.sh.(holder := None), phases := w.phases[c := Raised])
    case Finish(c, outcome) =>
      var (sh, phase) := Finished(w.sh, outcome);
      w.(sh := sh, phases := w.phases[c := phase])
    case PlainFetch(keys) => w.(sh := w.sh.(cache := Some(keys)))
  }

  /** Whether a step goes to the identity provider because of an unknown key id. */
  predicate Forces(w: World, cooldown: real, t: Step) { t.Recheck? && !Cooling(w.sh, cooldown, t.at) }

  ghost predicate {:induction false} IsRun(w: World, cooldown: real, run: seq<Step>)
    decreases |run|
  {
    run == [] || (Enabled(w, run[0]) && IsRun(Apply(w, cooldown, run[0]), cooldown, run[1..]))
  }

  ghost function {:induction false} Final(w: World, cooldown: real, run: seq<Step>): World
    decreases |run|
  {
    if run == [] then w else Final(Apply(w, cooldown, run[0]), cooldown, run[1..])
  }

  /** When the run forced a refresh. */
  ghost function {:induction false} Forced(w: World, cooldown: real, run: seq<Step>): seq<real>
    decreases |run|
  {
    if run == [] then []
    else (if Forces(w, cooldown, run[0]) then [run[0].at] else [])
         + Forced(Apply(w, cooldown, run[0]), cooldown, run[1..])
  }

  ghost predicate Initial(w: World) { w.sh == Shared(None, 0.0, None) && w.phases == map[] && w.now >= 0.0 }

  /* ---- The keys ---- */

  /** The keys the last successful fetch of a run brought, forced or not. */
  ghost function {:induction false} LastFetched(run: seq<Step>): Option<KeySet> {
    if run == [] then None
    else
      var last := run[|run| - 1];
      if last.PlainFetch? then Some(last.keys)
      else if last.Finish? && last.outcome.Fetched? then Some(last.outcome.keys)
      else LastFetched(run[..|run| - 1])
  }

  lemma {:induction false} FetchedLater(first: Step, rest: seq<Step>)
    ensures LastFetched([first] + rest) == if LastFetched(rest).Some? then LastFetched(rest) else LastFetched([first])
    decreases |rest|
  {
    var run := [first] + rest;
    if rest == [] {
      assert run == [first];
    } else {
      assert run[..|run| - 1] == [first] + rest[..|rest| - 1] && run[|run| - 1] == rest[|rest| - 1];
      FetchedLater(first, rest[..|rest| - 1]);
    }
  }

  /** In every run the cache holds what the last successful fetch brought. */
  lemma {:induction false} CacheIsLastFetched(w: World, cooldown: real, run: seq<Step>)
    requires IsRun(w, cooldown, run)
    ensures Final(w, cooldown, run).sh.cache == if LastFetched(run).Some? then LastFetched(run) else w.sh.cache
    decreases |run|
  {
    if run != [] {
      assert [run[0]][..0] == [] && LastFetched([run[0]][..0]) == None;
      hide LastFetched;
      CacheIsLastFetched(Apply(w, cooldown, run[0]), cooldown, run[1..]);
      FetchedLater(run[0], run[1..]);
      assert [run[0]] + run[1..] == run;
      StepCache(w, cooldown, run[0]);
    }
  }

  lemma StepCache(w: World, cooldown: real, t: Step)
    requires Enabled(w, t)
    ensures Apply(w, cooldown, t).sh.cache == if LastFetched([t]).Some? then LastFetched([t]) else w.sh.cache
  {
    assert [t][..0] == [];
  }

  /** A validation whose own fetch succeeded answers with the keys of that fetch; one that ends
      otherwise answers with the cache as it is then, or not at all. */
  lemma AnswersExactly(w: World, cooldown: real, t: Step, c: Caller)
    requires Enabled(w, t) && PhaseOf(Apply(w, cooldown, t), c) != PhaseOf(w, c)
    ensures PhaseOf(Apply(w, cooldown, t), c).Returned? ==>
      PhaseOf(Apply(w, cooldown, t), c).keys
      == if t.Finish? && t.outcome.Fetched? then Some(t.outcome.keys) else w.sh.cache
    ensures t.Finish? && t.outcome == Broken ==> PhaseOf(Apply(w, cooldown, t), c) == Raised
  {}

  /* ---- The lock ---- */

  /** The lock is held exactly by the one validation inside the critical section. */
  ghost predicate LockInv(w: World) {
    forall c: Caller :: w.sh.holder == Some(c) <==> Critical(PhaseOf(w, c))
  }

  lemma {:induction false} LockFollowsCriticalSection(w: World, cooldown: real, run: seq<Step>)
    requires LockInv(w) && IsRun(w, cooldown, run)
    ensures LockInv(Final(w, cooldown, run))
    decreases |run|
  {
    if run != [] {
      LockFollowsCriticalSection(Apply(w, cooldown, run[0]), cooldown, run[1..]);
    }
  }

  /** In every run at most one validation is between acquiring and releasing, and once all are
      out, however they left, the lock is free. */
  lemma LockIsReleasedOnEveryPath(w: World, cooldown: real, run: seq<Step>)
    requires Initial(w) && IsRun(w, cooldown, run)
    ensures var f := Final(w, cooldown, run);
      && (forall c, d :: Critical(PhaseOf(f, c)) && Critical(PhaseOf(f, d)) ==> c == d)
      && ((forall c :: !Critical(PhaseOf(f, c))) <==> f.sh.holder.None?)
  {
    LockFollowsCriticalSection(w, cooldown, run);
    var f := Final(w, cooldown, run);
    if f.sh.holder.Some? {
      assert Critical(PhaseOf(f, f.sh.holder.value));
    }
  }

  /* ---- The cooldown ---- */

  /** Each time is at least the cooldown after the one before it; the first, after `from`. */
  ghost predicate Spaced(times: seq<real>, from: real, cooldown: real) {
    forall i :: 0 <= i < |times| ==> times[i] >= Before(times, from, i) + cooldown
  }

  function Before(times: seq<real>, from: real, i: nat): real
    requires i < |times|
  {
    if i == 0 then from else times[i - 1]
  }

  lemma SpacedFront(first: real, rest: seq<real>, from: real, cooldown: real)
    requires first >= from + cooldown && Spaced(rest, first, cooldown)
    ensures Spaced([first] + rest, from, cooldown)
  {
    var all := [first] + rest;
    forall i | 0 <= i < |all| ensures all[i] >= Before(all, from, i) + cooldown {
      if i > 0 {
        assert all[i] == rest[i - 1] && Before(all, from, i) == Before(rest, first, i - 1);
      }
    }
  }

  lemma SpacedPrefix(times: seq<real>, from: real, cooldown: real, n: nat)
    requires Spaced(times, from, cooldown) && n <= |times|
    ensures Spaced(times[..n], from, cooldown)
  {
    forall i | 0 <= i < n ensures times[..n][i] >= Before(times[..n], from, i) + cooldown {
      assert times[i] >= Before(times, from, i) + cooldown;
    }
  }

  lemma OnlyForcingMovesTheMark(w: World, cooldown: real, t: Step)
    ensures Forces(w, cooldown, t) ==> t.at >= w.sh.last + cooldown && Apply(w, cooldown, t).sh.last == t.at
    ensures !Forces(w, cooldown, t) ==> Apply(w, cooldown, t).sh.last == w.sh.last
  {}

  lemma {:induction false} ForcedRefreshesAreSpaced(w: World, cooldown: real, run: seq<Step>)
    requires IsRun(w, cooldown, run)
    ensures Spaced(Forced(w, cooldown, run), w.sh.last, cooldown)
    decreases |run|
  {
    if run != [] {
      OnlyForcingMovesTheMark(w, cooldown, run[0]);
      assert Forces(w, cooldown, run[0]) ==> run[0].Recheck?;
      hide Apply, Enabled, Forces, Spaced;
      var next := Apply(w, cooldown, run[0]);
      var rest := Forced(next, cooldown, run[1..]);
      ForcedRefreshesAreSpaced(next, cooldown, run[1..]);
      if Forces(w, cooldown, run[0]) {
        SpacedFront(run[0].at, rest, w.sh.last, cooldown);
      } else {
        assert [] + rest == rest;
      }
    } else {
      assert Forced(w, cooldown, run) == [];
    }
  }

  /** One validation that misses its key and finds the lock free. */
  function LoneMiss(c: Caller, at: real): seq<Step> { [Enter(c, at), Acquire(c), Recheck(c, at)] }

  /** Such a miss goes through to the identity provider exactly when the cooldown since the last
      forced refresh is over; otherwise it is answered from the cache at once. */
  lemma KeyMissForcesExactlyWhen(w: World, cooldown: real, c: Caller, at: real)
    requires w.sh.holder.None? && PhaseOf(w, c).Outside? && at >= w.now
    ensures IsRun(w, cooldown, LoneMiss(c, at)) <==> at - w.sh.last >= cooldown
    ensures at - w.sh.last >= cooldown ==> Forced(w, cooldown, LoneMiss(c, at)) == [at]
    ensures at - w.sh.last < cooldown ==> PhaseOf(Apply(w, cooldown, Enter(c, at)), c) == Returned(w.sh.cache)
  {
    var run := LoneMiss(c, at);
    var run1, run2, run3 := run[1..], run[1..][1..], run[1..][1..][1..];
    assert run1 == [Acquire(c), Recheck(c, at)] && run2 == [Recheck(c, at)] && run3 == [];
    var w1 := Apply(w, cooldown, run[0]);
    var w2 := Apply(w1, cooldown, run1[0]);
    var w3 := Apply(w2, cooldown, run2[0]);
    assert IsRun(w, cooldown, run) <==> Enabled(w, run[0]) && IsRun(w1, cooldown, run1);
    assert IsRun(w1, cooldown, run1) <==> Enabled(w1, run1[0]) && IsRun(w2, cooldown, run2);
    if at - w.sh.last >= cooldown {
      assert IsRun(w3, cooldown, run3) && Forced(w3, cooldown, run3) == [];
      assert Forced(w2, cooldown, run2) == [at] && Forced(w1, cooldown, run1) == [at];
    }
  }

  /** The mark starts at 0.0 and the clock need not: from the start, the first key miss refreshes
      exactly when the clock reads at least the cooldown, and no run forces a refresh earlier. */
  lemma FirstRefreshExactlyWhen(w: World, cooldown: real, c: Caller, at: real, run: seq<Step>)
    requires cooldown > 0.0 && Initial(w) && at >= w.now && IsRun(w, cooldown, run)
    ensures IsRun(w, cooldown, LoneMiss(c, at)) <==> at >= cooldown
    ensures at >= cooldown ==> Forced(w, cooldown, LoneMiss(c, at)) == [at]
    ensures Forced(w, cooldown, run) != [] ==> Forced(w, cooldown, run)[0] >= cooldown
  {
    KeyMissForcesExactlyWhen(w, cooldown, c, at);
    ForcedRefreshesAreSpaced(w, cooldown, run);
  }

  /** A start that is refused: five seconds after boot, with the default cooldown of thirty, an
      unknown key id is not looked up although no refresh was ever made. */
  lemma EarlyKeyMissIsRefused(c: Caller)
    ensures var w := World(Shared(None, 0.0, None), map[], 0.0);
      Initial(w) && !IsRun(w, 30.0, LoneMiss(c, 5.0)) && PhaseOf(Apply(w, 30.0, Enter(c, 5.0)), c) == Returned(None)
  {
    KeyMissForcesExactlyWhen(World(Shared(None, 0.0, None), map[], 0.0), 30.0, c, 5.0);
  }

  /** How many of the times fall into an interval. */
  ghost function {:induction false} CountIn(times: seq<real>, lo: real, hi: real): nat {
    if times == [] then 0
    else CountIn(times[..|times| - 1], lo, hi) + (if lo <= times[|times| - 1] <= hi then 1 else 0)
  }

  lemma {:induction false} SameCount(times: seq<real>, lo: real, hi: real, hi': real)
    requires forall i :: 0 <= i < |times| ==> times[i] <= hi && times[i] <= hi'
    ensures CountIn(times, lo, hi) == CountIn(times, lo, hi')
  {
    if times != [] {
      SameCount(times[..|times| - 1], lo, hi, hi');
    }
  }

  lemma {:induction false} SpacedBelow(times: seq<real>, from: real, cooldown: real, i: nat, j: nat)
    requires cooldown > 0.0 && Spaced(times, from, cooldown) && i < j < |times|
    ensures times[i] <= times[j] - cooldown
    decreases j
  {
    assert times[j] >= Before(times, from, j) + cooldown;
    if i < j - 1 {
      SpacedBelow(times, from, cooldown, i, j - 1);
    }
  }

  /** The length of `n` cooldowns. */
  ghost function {:induction false} Cooldowns(n: nat, cooldown: real): real {
    if n == 0 then 0.0 else Cooldowns(n - 1, cooldown) + cooldown
  }

  lemma {:induction false} CooldownsAreProduct(n: nat, cooldown: real)
    ensures Cooldowns(n, cooldown) == n as real * cooldown
  {
    if n > 0 {
      CooldownsAreProduct(n - 1, cooldown);
      assert n as real * cooldown == (n - 1) as real * cooldown + cooldown;
    }
  }

  lemma {:induction false} SpacedCount(times: seq<real>, from: real, cooldown: real, lo: real, hi: real)
    requires cooldown > 0.0 && Spaced(times, from, cooldown) && CountIn(times, lo, hi) >= 1
    ensures Cooldowns(CountIn(times, lo, hi) - 1, cooldown) <= hi - lo
    decreases |times|
  {
    hide Spaced;
    var n := |times| - 1;
    var front, last := times[..n], times[n];
    SpacedPrefix(times, from, cooldown, n);
    if lo <= last <= hi {
      forall i | 0 <= i < n ensures front[i] <= last - cooldown {
        SpacedBelow(times, from, cooldown, i, n);
      }
      SameCount(front, lo, hi, last - cooldown);
      var k := CountIn(front, lo, last - cooldown);
      if k >= 1 {
        SpacedCount(front, from, cooldown, lo, last - cooldown);
      }
    } else {
      SpacedCount(front, from, cooldown, lo, hi);
    }
  }

  /** However many validations miss their key at once, and however fetches end, any interval of
      length `length` sees at most one forced refresh more than the cooldowns that fit into it. */
  lemma RefreshesPerInterval(w: World, cooldown: real, run: seq<Step>, lo: real, length: real)
    requires cooldown > 0.0 && length >= 0.0 && IsRun(w, cooldown, run)
    ensures CountIn(Forced(w, cooldown, run), lo, lo + length) <= 1 + (length / cooldown).Floor
  {
    ForcedRefreshesAreSpaced(w, cooldown, run);
    var k := CountIn(Forced(w, cooldown, run), lo, lo + length);
    if k >= 1 {
      SpacedCount(Forced(w, cooldown, run), w.sh.last, cooldown, lo, lo + length);
      QuotientBound(k - 1, cooldown, length);
    } else {
      QuotientBound(0, cooldown, length);
    }
  }

  lemma QuotientBound(k: nat, cooldown: real, length: real)
    requires cooldown > 0.0 && Cooldowns(k, cooldown) <= length
    ensures k <= (length / cooldown).Floor
  {
    CooldownsAreProduct(k, cooldown);
    var q, r := length / cooldown, k as real;
    assert q * cooldown == length;
    assert (r - q) * cooldown <= 0.0;
    assert r <= q;
  }

  /* ---- The bound is reached ---- */

  /** One validation after the other, each refreshing as soon as the cooldown allows. */
  ghost function {:induction false} BusyRun(first: Caller, n: nat, at: real, cooldown: real): seq<Step>
    decreases n
  {
    if n == 0 then []
    else [Enter(first, at), Acquire(first), Recheck(first, at), Finish(first, Unauthorised)]
         + BusyRun(first + 1, n - 1, at + cooldown, cooldown)
  }

  lemma {:induction false} EverySlotCanBeUsed(w: World, first: Caller, n: nat, at: real, cooldown: real)
    requires cooldown > 0.0 && w.sh.holder.None? && at >= w.now && at - w.sh.last >= cooldown
    requires forall c :: c >= first ==> PhaseOf(w, c).Outside?
    ensures IsRun(w, cooldown, BusyRun(first, n, at, cooldown))
    ensures |Forced(w, cooldown, BusyRun(first, n, at, cooldown))| == n
    ensures forall i :: 0 <= i < n ==> Forced(w, cooldown, BusyRun(first, n, at, cooldown))[i] == at + Cooldowns(i, cooldown)
    decreases n
  {
    if n > 0 {
      var run := BusyRun(first, n, at, cooldown);
      var w1 := Apply(w, cooldown, Enter(first, at));
      var w2 := Apply(w1, cooldown, Acquire(first));
      var w3 := Apply(w2, cooldown, Recheck(first, at));
      var w4 := Apply(w3, cooldown, Finish(first, Unauthorised));
      var rest := BusyRun(first + 1, n - 1, at + cooldown, cooldown);
      var run1, run2, run3 := run[1..], run[1..][1..], run[1..][1..][1..];
      assert run3[1..] == rest;
      forall c | c >= first + 1 ensures PhaseOf(w4, c).Outside? {
        assert PhaseOf(w, c).Outside?;
      }
      EverySlotCanBeUsed(w4, first + 1, n - 1, at + cooldown, cooldown);
      assert IsRun(w3, cooldown, run3) && IsRun(w2, cooldown, run2) && IsRun(w1, cooldown, run1);
      var later := Forced(w4, cooldown, rest);
      assert Forced(w, cooldown, run) == [at] + later by {
        assert Forced(w3, cooldown, run3) == later;
        assert Forced(w2, cooldown, run2) == [at] + later;
        assert Forced(w1, cooldown, run1) == [at] + later;
      }
      forall i | 0 <= i < n ensures ([at] + later)[i] == at + Cooldowns(i, cooldown) {
        if i > 0 {
          assert ([at] + later)[i] == later[i - 1];
        }
      }
    }
  }
}
