/** Many clients at once: callers of the fallback interleave single Redis commands with each
    other, with script calls, with expiring keys and with crashes. */
module RateLimitRaces {
  import opened Common
  import opened RateLimit

  /** Where a caller of the fallback is: before GET, PTTL or PEXPIRE of the bucket that blocks
      it, or before INCR, PTTL or PEXPIRE of a bucket it counts. */
  datatype Position =
    | Checking(i: nat) | BlockedTtl(i: nat) | BlockedExpire(i: nat)
    | Bumping(i: nat) | BumpedTtl(i: nat, next: int) | BumpedExpire(i: nat)
    | Done(verdict: Verdict)

  datatype Caller = Caller(buckets: seq<Bucket>, at: Position)

  predicate WellPlaced(c: Caller) { c.at.Done? || c.at.i < |c.buckets| }

  function Enter(bs: seq<Bucket>): Caller { Caller(bs, if bs == [] then Done(Allowed) else Checking(0)) }

  /** On to the next bucket to count, if any. */
  function NextBump(bs: seq<Bucket>, i: nat): Position {
    if i + 1 < |bs| then Bumping(i + 1) else Done(Allowed)
  }

  /** One command of one caller. */
  function Command(s: Store, c: Caller): (Store, Caller)
    requires WellPlaced(c)
  {
    match c.at
    case Checking(i) =>
      if Exhausted(s, c.buckets[i]) then (s, c.(at := BlockedTtl(i)))
      else (s, c.(at := if i + 1 < |c.buckets| then Checking(i + 1) else Bumping(0)))
    case BlockedTtl(i) =>
      if Pttl(s, c.buckets[i].key) < 1 then (s, c.(at := BlockedExpire(i)))
      else (s, c.(at := Done(Blocked(i, RetryAfter(Pttl(s, c.buckets[i].key))))))
    case BlockedExpire(i) =>
      var ms := c.buckets[i].expirySeconds * 1000;
      (Pexpire(s, c.buckets[i].key, ms), c.(at := Done(Blocked(i, RetryAfter(ms)))))
    case Bumping(i) =>
      var counted := Incr(s, c.buckets[i].key);
      (counted, c.(at := BumpedTtl(i, Count(counted, c.buckets[i].key))))
    case BumpedTtl(i, next) =>
      if next == 1 || Pttl(s, c.buckets[i].key) < 1 then (s, c.(at := BumpedExpire(i)))
      else (s, c.(at := NextBump(c.buckets, i)))
    case BumpedExpire(i) =>
      (Pexpire(s, c.buckets[i].key, c.buckets[i].expirySeconds * 1000), c.(at := NextBump(c.buckets, i)))
    case Done(_) => (s, c)
  }

  /* ---- The commands are the fallback ---- */

  function Left(c: Caller): nat
    requires WellPlaced(c)
  {
    var n := |c.buckets|;
    match c.at
    case Checking(i) => 4 * n + 4 + n - i
    case BlockedTtl(_) => 2
    case BlockedExpire(_) => 1
    case Bumping(i) => 4 * (n - i) + 3
    case BumpedTtl(i, _) => 4 * (n - i) + 2
    case BumpedExpire(i) => 4 * (n - i) + 1
    case Done(_) => 0
  }

  /** A caller left alone until it is done. */
  ghost function {:induction false} Alone(s: Store, c: Caller): (Store, Caller)
    requires WellPlaced(c)
    decreases Left(c)
  {
    if c.at.Done? then (s, c) else var (t, d) := Command(s, c); Alone(t, d)
  }

  lemma {:induction false} AloneCounts(start: Store, s: Store, bs: seq<Bucket>, i: nat)
    requires i < |bs| && s == BumpedAll(start, bs[..i], FALLBACK)
    ensures Alone(s, Caller(bs, Bumping(i))) == (BumpedAll(start, bs, FALLBACK), Caller(bs, Done(Allowed)))
    decreases |bs| - i
  {
    assert bs[..i + 1][..i] == bs[..i];
    var next := BumpedAll(start, bs[..i + 1], FALLBACK);
    var (s1, c1) := Command(s, Caller(bs, Bumping(i)));
    var (s2, c2) := Command(s1, c1);
    assert Alone(s, Caller(bs, Bumping(i))) == Alone(s1, c1) == Alone(s2, c2);
    if c2.at.BumpedExpire? {
      var (s3, c3) := Command(s2, c2);
      assert Alone(s2, c2) == Alone(s3, c3);
    }
    assert Alone(s2, c2) == Alone(next, Caller(bs, NextBump(bs, i)));
    if i + 1 < |bs| {
      AloneCounts(start, next, bs, i + 1);
    } else {
      assert bs[..i + 1] == bs;
    }
  }

  /** Left alone, the command machine is the fallback: it ends with its verdict and keyspace. */
  lemma {:induction false} AloneIsFallback(s: Store, bs: seq<Bucket>, i: nat)
    requires i < |bs| && forall j :: 0 <= j < i ==> !Exhausted(s, bs[j])
    ensures var (t, c) := Alone(s, Caller(bs, Checking(i)));
      c.at.Done? && Consumes(s, bs, FALLBACK, t, c.at.verdict)
    decreases |bs| - i
  {
    var c := Caller(bs, Checking(i));
    var (s1, c1) := Command(s, c);
    assert Alone(s, c) == Alone(s1, c1);
    if Exhausted(s, bs[i]) {
      var (s2, c2) := Command(s1, c1);
      assert Alone(s1, c1) == Alone(s2, c2);
      if c2.at.BlockedExpire? {
        var (s3, c3) := Command(s2, c2);
        assert Alone(s2, c2) == Alone(s3, c3) == (s3, c3);
      }
    } else if i + 1 < |bs| {
      AloneIsFallback(s, bs, i + 1);
    } else {
      assert bs[..0] == [];
      AloneCounts(s, s, bs, 0);
    }
  }

  /* ---- All clients together ---- */

  datatype World = World(store: Store, callers: map<nat, Caller>)

  datatype Event =
    | Call(id: nat, buckets: seq<Bucket>)
    | Run(id: nat)
    | Leave(id: nat)
    | Script(buckets: seq<Bucket>)
    | KeyExpires(key: string)
    | TimePasses(ttls: map<string, Option<nat>>)

  /** At most `n` callers are in flight, a script call included; each group names different
      keys, and everyone uses the same limit for the same key. Callers may leave at any time:
      done, timed out or crashed. */
  ghost predicate Possible(w: World, e: Event, n: nat, limit: string -> int) {
    match e
    case Call(id, bs) => id !in w.callers && |w.callers| < n && FairGroup(bs, limit)
    case Run(id) => id in w.callers
    case Leave(id) => id in w.callers
    case Script(bs) => |w.callers| < n && FairGroup(bs, limit)
    case KeyExpires(_) => true
    case TimePasses(ttls) => ttls.Keys == w.store.Keys
  }

  ghost predicate FairGroup(bs: seq<Bucket>, limit: string -> int) {
    DistinctKeys(bs) && forall i :: 0 <= i < |bs| ==> bs[i].limit == limit(bs[i].key)
  }

  /** The least exhausted bucket of a group, or its length if there is none. */
  function {:induction false} Blocking(s: Store, bs: seq<Bucket>): (i: nat)
    ensures i <= |bs| && (i < |bs| ==> Exhausted(s, bs[i]))
    ensures forall j :: 0 <= j < i ==> !Exhausted(s, bs[j])
  {
    if bs == [] || Exhausted(s, bs[0]) then 0 else 1 + Blocking(s, bs[1..])
  }

  /** The keyspace a script call leaves. */
  function ScriptStore(s: Store, bs: seq<Bucket>): Store {
    var i := Blocking(s, bs);
    if i < |bs| then Restarted(s, bs[i], SCRIPT) else BumpedAll(s, bs, SCRIPT)
  }

  lemma ScriptStoreIsScript(s: Store, bs: seq<Bucket>, t: Store, v: Verdict)
    requires Consumes(s, bs, SCRIPT, t, v)
    ensures t == ScriptStore(s, bs)
  {
    var i := Blocking(s, bs);
    if v.Blocked? {
      assert i == v.index;
    }
  }

  ghost function Next(w: World, e: Event): World
    requires forall id :: id in w.callers ==> WellPlaced(w.callers[id])
    requires match e case Run(id) => id in w.callers case TimePasses(ttls) => ttls.Keys == w.store.Keys case _ => true
  {
    match e
    case Call(id, bs) => w.(callers := w.callers[id := Enter(bs)])
    case Run(id) => var (s, c) := Command(w.store, w.callers[id]); World(s, w.callers[id := c])
    case Leave(id) => w.(callers := w.callers - {id})
    case Script(bs) => w.(store := ScriptStore(w.store, bs))
    case KeyExpires(key) => w.(store := w.store - {key})
    case TimePasses(ttls) => w.(store := map key | key in w.store :: w.store[key].(ttl := ttls[key]))
  }

  /* ---- The overshoot ---- */

  /** A caller that has seen room in a bucket of this key and not yet counted its hit. */
  ghost predicate Committed(c: Caller, key: string)
    requires WellPlaced(c)
  {
    match c.at
    case Checking(i) => exists j :: 0 <= j < i && c.buckets[j].key == key
    case Bumping(i) => exists j :: i <= j < |c.buckets| && c.buckets[j].key == key
    case BumpedTtl(i, _) => exists j :: i < j < |c.buckets| && c.buckets[j].key == key
    case BumpedExpire(i) => exists j :: i < j < |c.buckets| && c.buckets[j].key == key
    case _ => false
  }

  ghost predicate Sound(w: World, n: nat, limit: string -> int) {
    && Counting(w.store) && |w.callers| <= n
    && forall id :: id in w.callers ==> WellPlaced(w.callers[id]) && FairGroup(w.callers[id].buckets, limit)
  }

  ghost function Waiting(w: World, key: string): set<nat>
    requires forall id :: id in w.callers ==> WellPlaced(w.callers[id])
  {
    set id | id in w.callers && Committed(w.callers[id], key)
  }

  /** Hits counted and hits still coming stay within the limit and the other callers. */
  ghost predicate Tame(w: World, n: nat, limit: string -> int, key: string)
    requires Sound(w, n, limit)
  {
    Count(w.store, key) + |Waiting(w, key)| > 0 ==>
      Count(w.store, key) + |Waiting(w, key)| <= limit(key) + n - 1
  }

  lemma SoundStep(w: World, e: Event, n: nat, limit: string -> int)
    requires Sound(w, n, limit) && Possible(w, e, n, limit)
    ensures Sound(Next(w, e), n, limit)
  {
    hide Command, FairGroup, ScriptStore, Exhausted;
    match e
    case Script(bs) =>
      ScriptCounts(w.store, bs, "");
    case Leave(id) =>
      SoundLeave(w, id, n, limit);
    case Run(id) =>
      SoundRun(w, id, n, limit);
    case _ =>
  }

  lemma SoundLeave(w: World, id: nat, n: nat, limit: string -> int)
    requires Sound(w, n, limit) && id in w.callers
    ensures Sound(Next(w, Leave(id)), n, limit)
  {
    hide Command, FairGroup, Counting, WellPlaced;
    var rest := w.callers - {id};
    assert w.callers.Keys - {id} == rest.Keys;
    SubsetSize(rest.Keys, w.callers.Keys);
    assert |rest| == |rest.Keys| && |w.callers| == |w.callers.Keys|;
  }

  lemma CommandKeeps(s: Store, c: Caller)
    requires WellPlaced(c) && Counting(s)
    ensures var (t, d) := Command(s, c);
      Counting(t) && WellPlaced(d) && d.buckets == c.buckets
  {}

  lemma SoundRun(w: World, id: nat, n: nat, limit: string -> int)
    requires Sound(w, n, limit) && id in w.callers
    ensures Sound(Next(w, Run(id)), n, limit)
  {
    hide Command, Counting, FairGroup;
    CommandKeeps(w.store, w.callers[id]);
    var after := Next(w, Run(id)).callers;
    assert after.Keys == w.callers.Keys;
    assert |after| == |after.Keys| && |w.callers| == |w.callers.Keys|;
  }

  lemma ScriptCounts(s: Store, bs: seq<Bucket>, key: string)
    requires Counting(s)
    ensures Counting(ScriptStore(s, bs))
    ensures Count(ScriptStore(s, bs), key) == Count(s, key)
      || (Count(ScriptStore(s, bs), key) == Count(s, key) + Times(bs, key)
          && forall i :: 0 <= i < |bs| ==> !Exhausted(s, bs[i]))
  {
    BumpedAllCounts(s, bs, SCRIPT, key);
  }

  lemma TameStep(w: World, e: Event, n: nat, limit: string -> int, key: string)
    requires Sound(w, n, limit) && Possible(w, e, n, limit) && Tame(w, n, limit, key)
    ensures Sound(Next(w, e), n, limit) && Tame(Next(w, e), n, limit, key)
  {
    SoundStep(w, e, n, limit);
    var after := Next(w, e);
    WaitingAreCallers(w, key);
    match e
    case Call(id, bs) =>
      assert Waiting(after, key) == Waiting(w, key);
    case Run(id) =>
      TameCommand(w, id, n, limit, key);
    case Leave(id) =>
      SubsetSize(Waiting(after, key), Waiting(w, key));
    case Script(bs) =>
      assert Waiting(after, key) == Waiting(w, key);
      ScriptCounts(w.store, bs, key);
      if Times(bs, key) > 0 {
        var i := SomeIndex(bs, key);
        DistinctTimes(bs, i);
      }
    case KeyExpires(k) =>
      assert Waiting(after, key) == Waiting(w, key);
    case TimePasses(_) =>
      assert Waiting(after, key) == Waiting(w, key);
  }

  lemma {:induction false} SomeIndex(bs: seq<Bucket>, key: string) returns (i: nat)
    requires Times(bs, key) > 0
    ensures i < |bs| && bs[i].key == key
  {
    if bs[|bs| - 1].key == key {
      i := |bs| - 1;
    } else {
      i := SomeIndex(bs[..|bs| - 1], key);
    }
  }

  lemma WaitingAreCallers(w: World, key: string)
    requires forall id :: id in w.callers ==> WellPlaced(w.callers[id])
    ensures |Waiting(w, key)| <= |w.callers|
  {
    SubsetSize(Waiting(w, key), w.callers.Keys);
    assert |w.callers| == |w.callers.Keys|;
  }

  /** One command: seeing room commits the caller, counting the hit uses the commitment up. */
  lemma TameCommand(w: World, id: nat, n: nat, limit: string -> int, key: string)
    requires Sound(w, n, limit) && id in w.callers && Tame(w, n, limit, key)
    requires Sound(Next(w, Run(id)), n, limit)
    ensures Tame(Next(w, Run(id)), n, limit, key)
  {
    hide Command, Counting, Exhausted, Committed;
    var after := Next(w, Run(id));
    var c, d := w.callers[id], after.callers[id];
    WaitingAreCallers(after, key);
    CommandEffect(w.store, c, key);
    if Committed(d, key) && !Committed(c, key) {
      RoomMeansBelow(w.store, c, limit, key);
    }
    hide FairGroup;
    assert |after.callers| <= n;
    if Committed(d, key) {
      assert Waiting(after, key) == Waiting(w, key) + {id};
    } else {
      assert Waiting(after, key) == Waiting(w, key) - {id};
    }
  }

  lemma RoomMeansBelow(s: Store, c: Caller, limit: string -> int, key: string)
    requires FairGroup(c.buckets, limit)
    requires exists i :: 0 <= i < |c.buckets| && c.buckets[i].key == key && !Exhausted(s, c.buckets[i])
    ensures Count(s, key) < limit(key)
  {}

  lemma CommandEffect(s: Store, c: Caller, key: string)
    requires WellPlaced(c) && DistinctKeys(c.buckets) && Counting(s)
    ensures var (t, d) := Command(s, c);
      && WellPlaced(d)
      && (Count(t, key) != Count(s, key) ==>
            Count(t, key) == Count(s, key) + 1 && Committed(c, key) && !Committed(d, key))
      && (Committed(d, key) && !Committed(c, key) ==>
            exists i :: 0 <= i < |c.buckets| && c.buckets[i].key == key && !Exhausted(s, c.buckets[i]))
  {
    var (t, d) := Command(s, c);
    if c.at.Checking? && !Exhausted(s, c.buckets[c.at.i]) && Committed(d, key) && !Committed(c, key) {
      assert c.buckets[c.at.i].key == key;
    }
  }

  ghost predicate {:induction false} IsRun(w: World, run: seq<Event>, n: nat, limit: string -> int)
    requires Sound(w, n, limit)
    decreases |run|
  {
    run == [] || (Possible(w, run[0], n, limit)
      && (SoundStep(w, run[0], n, limit); IsRun(Next(w, run[0]), run[1..], n, limit)))
  }

  ghost function {:induction false} Final(w: World, run: seq<Event>, n: nat, limit: string -> int): World
    requires Sound(w, n, limit) && IsRun(w, run, n, limit)
    decreases |run|
  {
    if run == [] then w else (SoundStep(w, run[0], n, limit); Final(Next(w, run[0]), run[1..], n, limit))
  }

  lemma {:induction false} RunTame(w: World, run: seq<Event>, n: nat, limit: string -> int, key: string)
    requires Sound(w, n, limit) && IsRun(w, run, n, limit) && Tame(w, n, limit, key)
    ensures var last := Final(w, run, n, limit); Sound(last, n, limit) && Tame(last, n, limit, key)
    decreases |run|
  {
    if run != [] {
      TameStep(w, run[0], n, limit, key);
      RunTame(Next(w, run[0]), run[1..], n, limit, key);
    }
  }

  const NOBODY := World(map[], map[])

  /** With at most `n` callers in flight, however their commands interleave with each other,
      with script calls and with expiring keys, no counter passes its limit by `n` or more. */
  lemma OvershootBounded(run: seq<Event>, n: nat, limit: string -> int, key: string)
    requires IsRun(NOBODY, run, n, limit)
    ensures var count := Count(Final(NOBODY, run, n, limit).store, key);
      count > 0 ==> count <= limit(key) + n - 1
  {
    assert Waiting(NOBODY, key) == {};
    RunTame(NOBODY, run, n, limit, key);
  }

  /* ---- The bound is reached ---- */

  /** Callers 0 to m - 1 have all seen room in the one bucket of their group. */
  ghost predicate AllCommitted(w: World, m: nat, b: Bucket) {
    forall id :: 0 <= id < m ==> id in w.callers && w.callers[id] == Caller([b], Bumping(0))
  }

  lemma {:induction false} BumpsReach(w: World, m: nat, b: Bucket, n: nat, limit: string -> int) returns (run: seq<Event>)
    requires Sound(w, n, limit) && AllCommitted(w, m, b)
    ensures IsRun(w, run, n, limit)
    ensures Count(Final(w, run, n, limit).store, b.key) == Count(w.store, b.key) + m
    decreases m
  {
    run := [];
    if m > 0 {
      var e := Run(m - 1);
      SoundStep(w, e, n, limit);
      var rest := BumpsReach(Next(w, e), m - 1, b, n, limit);
      run := [e] + rest;
      assert run[1..] == rest;
    }
  }

  lemma Prepend(w: World, e: Event, rest: seq<Event>, n: nat, limit: string -> int)
    requires Sound(w, n, limit) && Possible(w, e, n, limit)
    requires Sound(Next(w, e), n, limit) && IsRun(Next(w, e), rest, n, limit)
    ensures IsRun(w, [e] + rest, n, limit)
    ensures Final(w, [e] + rest, n, limit) == Final(Next(w, e), rest, n, limit)
  {
    assert ([e] + rest)[1..] == rest;
  }

  /** A newcomer that finds room in its one bucket. */
  lemma EntersCommitted(w: World, k: nat, b: Bucket, n: nat, limit: string -> int)
    requires Sound(w, n, limit) && AllCommitted(w, k, b) && (forall id :: id in w.callers ==> id < k)
    requires |w.callers| == k < n && b.limit == limit(b.key) && !Exhausted(w.store, b)
    ensures Possible(w, Call(k, [b]), n, limit) && Sound(Next(w, Call(k, [b])), n, limit)
    ensures var entered := Next(w, Call(k, [b]));
      && Possible(entered, Run(k), n, limit)
      && var checked := Next(entered, Run(k));
         && Sound(checked, n, limit) && checked.store == w.store && AllCommitted(checked, k + 1, b)
         && |checked.callers| == k + 1 && forall id :: id in checked.callers ==> id < k + 1
  {
    assert FairGroup([b], limit);
    SoundStep(w, Call(k, [b]), n, limit);
    var entered := Next(w, Call(k, [b]));
    SoundStep(entered, Run(k), n, limit);
    assert Next(entered, Run(k)).callers == w.callers[k := Caller([b], Bumping(0))];
  }

  lemma {:induction false} CallsReach(w: World, k: nat, b: Bucket, n: nat, limit: string -> int) returns (run: seq<Event>)
    requires Sound(w, n, limit) && AllCommitted(w, k, b) && (forall id :: id in w.callers ==> id < k)
    requires |w.callers| == k <= n && b.limit == limit(b.key) && !Exhausted(w.store, b)
    ensures IsRun(w, run, n, limit)
    ensures Count(Final(w, run, n, limit).store, b.key) == Count(w.store, b.key) + n
    decreases n - k
  {
    if k == n {
      run := BumpsReach(w, n, b, n, limit);
    } else {
      EntersCommitted(w, k, b, n, limit);
      var entered := Next(w, Call(k, [b]));
      run := CallsReach(Next(entered, Run(k)), k + 1, b, n, limit);
      Prepend(entered, Run(k), run, n, limit);
      run := [Run(k)] + run;
      Prepend(w, Call(k, [b]), run, n, limit);
      run := [Call(k, [b])] + run;
    }
  }

  /** The bound is exact: for every number of callers some run drives the counter to it. */
  lemma {:induction false} OvershootReached(w: World, b: Bucket, n: nat, limit: string -> int) returns (run: seq<Event>)
    requires Counting(w.store) && w.callers == map[] && n >= 1
    requires b.limit == limit(b.key) && Count(w.store, b.key) < b.limit
    ensures Sound(w, n, limit) && IsRun(w, run, n, limit)
    ensures Count(Final(w, run, n, limit).store, b.key) == limit(b.key) + n - 1
    decreases b.limit - Count(w.store, b.key)
  {
    if Count(w.store, b.key) == b.limit - 1 {
      run := CallsReach(w, 0, b, n, limit);
    } else {
      var e := Script([b]);
      assert FairGroup([b], limit);
      SoundStep(w, e, n, limit);
      assert [b][..0] == [];
      BumpedAllCounts(w.store, [b], SCRIPT, b.key);
      assert Times([b], b.key) == 1;
      var rest := OvershootReached(Next(w, e), b, n, limit);
      run := [e] + rest;
      assert run[1..] == rest;
    }
  }
}
