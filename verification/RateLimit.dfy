/** Grouped fixed-window rate limiting on shared Redis counters: the atomic script and the
    command-by-command fallback over the same keys. */
module RateLimit {
  import opened Common

  /* ---- Redis ---- */

  /** A counter and the milliseconds it has left; without an expiry it stays. */
  datatype Entry = Entry(value: int, ttl: Option<nat>)

  type Store = map<string, Entry>

  function Count(s: Store, key: string): int { if key in s then s[key].value else 0 }

  /** PTTL: -2 for a missing key, -1 for a key that stays. */
  function Pttl(s: Store, key: string): int {
    if key !in s then -2 else match s[key].ttl case None => -1 case Some(ms) => ms
  }

  function Incr(s: Store, key: string): Store {
    s[key := if key in s then s[key].(value := s[key].value + 1) else Entry(1, None)]
  }

  function Pexpire(s: Store, key: string, ms: nat): Store {
    if key in s then s[key := s[key].(ttl := Some(ms))] else s
  }

  /** Counters are created by INCR, so a stored one is positive. */
  ghost predicate Counting(s: Store) { forall key :: key in s ==> s[key].value >= 1 }

  /** The keyspace behind one client connection; each method is one atomic command. */
  class RedisClient {
    var store: Store

    constructor ()
      ensures store == map[]
    {
      store := map[];
    }

    method GetOrZero(key: string) returns (value: int)
      ensures value == Count(store, key)
    {
      value := if key in store then store[key].value else 0;
    }

    method TimeToLive(key: string) returns (ms: int)
      ensures ms == Pttl(store, key)
    {
      ms := Pttl(store, key);
    }

    method Increment(key: string) returns (value: int)
      modifies this
      ensures store == Incr(old(store), key) && value == Count(store, key)
    {
      store := Incr(store, key);
      value := store[key].value;
    }

    method Expire(key: string, ms: nat)
      modifies this
      ensures store == Pexpire(old(store), key, ms)
    {
      store := Pexpire(store, key, ms);
    }
  }

  /* ---- Grouped buckets ---- */

  /** A window lasts at least a second. */
  type Seconds = n: nat | n >= 1 witness 1

  datatype Bucket = Bucket(key: string, limit: int, expirySeconds: Seconds)

  datatype Verdict = Allowed | Blocked(index: nat, retryAfterSeconds: int)

  predicate Exhausted(s: Store, b: Bucket) { Count(s, b.key) >= b.limit }

  /** Whole seconds to wait, never less than one. */
  function RetryAfter(ms: int): int { if (ms + 999) / 1000 >= 1 then (ms + 999) / 1000 else 1 }

  /** The wait reported for an exhausted bucket. */
  function Wait(s: Store, b: Bucket): int {
    RetryAfter(if Pttl(s, b.key) < 1 then b.expirySeconds * 1000 else Pttl(s, b.key))
  }

  /** A window of this bucket, restarted when its time to live reads below `bound`. */
  function Restarted(s: Store, b: Bucket, bound: int): Store {
    if Pttl(s, b.key) < bound then Pexpire(s, b.key, b.expirySeconds * 1000) else s
  }

  /** One more hit. `bound` is where the two paths differ: the script restarts windows whose
      time to live is negative, the fallback those below one millisecond. */
  function Bumped(s: Store, b: Bucket, bound: int): Store {
    var counted := Incr(s, b.key);
    if Count(counted, b.key) == 1 then Pexpire(counted, b.key, b.expirySeconds * 1000)
    else Restarted(counted, b, bound)
  }

  function {:induction false} BumpedAll(s: Store, bs: seq<Bucket>, bound: int): Store {
    if bs == [] then s else Bumped(BumpedAll(s, bs[..|bs| - 1], bound), bs[|bs| - 1], bound)
  }

  const SCRIPT := 0
  const FALLBACK := 1

  /** What a consume does to the keyspace when nobody else is active. */
  ghost predicate Consumes(before: Store, bs: seq<Bucket>, bound: int, after: Store, v: Verdict) {
    match v
    case Allowed =>
      && (forall i :: 0 <= i < |bs| ==> !Exhausted(before, bs[i]))
      && after == BumpedAll(before, bs, bound)
    case Blocked(index, wait) =>
      && index < |bs| && Exhausted(before, bs[index])
      && (forall i :: 0 <= i < index ==> !Exhausted(before, bs[i]))
      && after == Restarted(before, bs[index], bound) && wait == Wait(before, bs[index])
  }

  /** The Lua script: indices count from one, and the whole body is one atomic step. */
  method ConsumeScript(redis: RedisClient, bs: seq<Bucket>) returns (code: int, position: nat, ms: int)
    modifies redis
    ensures code == 0 || code == 1
    ensures code == 1 ==> Consumes(old(redis.store), bs, SCRIPT, redis.store, Allowed)
    ensures code == 0 ==>
      && 1 <= position <= |bs| && Exhausted(old(redis.store), bs[position - 1])
      && (forall i :: 0 <= i < position - 1 ==> !Exhausted(old(redis.store), bs[i]))
      && redis.store == Restarted(old(redis.store), bs[position - 1], SCRIPT)
      && ms == (if Pttl(old(redis.store), bs[position - 1].key) < 0 then bs[position - 1].expirySeconds * 1000
                else Pttl(old(redis.store), bs[position - 1].key))
  {
    for i := 1 to |bs| + 1
      invariant redis.store == old(redis.store)
      invariant forall j :: 0 <= j < i - 1 ==> !Exhausted(redis.store, bs[j])
    {
      var current := redis.GetOrZero(bs[i - 1].key);
      if current >= bs[i - 1].limit {
        ms := redis.TimeToLive(bs[i - 1].key);
        if ms < 0 {
          ms := bs[i - 1].expirySeconds * 1000;
          redis.Expire(bs[i - 1].key, ms);
        }
        return 0, i, ms;
      }
    }
    for i := 1 to |bs| + 1
      invariant redis.store == BumpedAll(old(redis.store), bs[..i - 1], SCRIPT)
    {
      assert bs[..i][..i - 1] == bs[..i - 1];
      var next := redis.Increment(bs[i - 1].key);
      var left := redis.TimeToLive(bs[i - 1].key);
      if next == 1 || left < 0 {
        redis.Expire(bs[i - 1].key, bs[i - 1].expirySeconds * 1000);
      }
    }
    assert bs[..|bs|] == bs;
    return 1, 0, 0;
  }

  method AtomicConsumeGroupedBuckets(redis: RedisClient, bs: seq<Bucket>) returns (v: Verdict)
    modifies redis
    ensures Consumes(old(redis.store), bs, SCRIPT, redis.store, v)
  {
    var code, position, ms := ConsumeScript(redis, bs);
    if code == 1 {
      return Allowed;
    }
    if ms < 1 {
      ms := bs[position - 1].expirySeconds * 1000;
    }
    return Blocked(position - 1, RetryAfter(ms));
  }

  /** The fallback with no other client active. */
  method CompatibilityConsumeGroupedBuckets(redis: RedisClient, bs: seq<Bucket>) returns (v: Verdict)
    modifies redis
    ensures Consumes(old(redis.store), bs, FALLBACK, redis.store, v)
  {
    for i := 0 to |bs|
      invariant redis.store == old(redis.store)
      invariant forall j :: 0 <= j < i ==> !Exhausted(redis.store, bs[j])
    {
      var current := redis.GetOrZero(bs[i].key);
      if current >= bs[i].limit {
        var ms := redis.TimeToLive(bs[i].key);
        if ms < 1 {
          ms := bs[i].expirySeconds * 1000;
          redis.Expire(bs[i].key, ms);
        }
        return Blocked(i, RetryAfter(ms));
      }
    }
    for i := 0 to |bs|
      invariant redis.store == BumpedAll(old(redis.store), bs[..i], FALLBACK)
    {
      assert bs[..i + 1][..i] == bs[..i];
      var next := redis.Increment(bs[i].key);
      var left := redis.TimeToLive(bs[i].key);
      if next == 1 || left < 1 {
        redis.Expire(bs[i].key, bs[i].expirySeconds * 1000);
      }
    }
    assert bs[..|bs|] == bs;
    return Allowed;
  }

  /* ---- All or nothing ---- */

  /** How often a group names a key. */
  function {:induction false} Times(bs: seq<Bucket>, key: string): nat {
    if bs == [] then 0 else Times(bs[..|bs| - 1], key) + if bs[|bs| - 1].key == key then 1 else 0
  }

  lemma {:induction false} BumpedAllCounts(s: Store, bs: seq<Bucket>, bound: int, key: string)
    requires Counting(s)
    ensures Counting(BumpedAll(s, bs, bound))
    ensures Count(BumpedAll(s, bs, bound), key) == Count(s, key) + Times(bs, key)
    ensures bound >= 0 && Times(bs, key) > 0 ==> Pttl(BumpedAll(s, bs, bound), key) >= 0
    ensures Times(bs, key) == 0 ==> (key in BumpedAll(s, bs, bound) <==> key in s)
    ensures Times(bs, key) == 0 && key in s ==> BumpedAll(s, bs, bound)[key] == s[key]
  {
    if bs != [] {
      BumpedAllCounts(s, bs[..|bs| - 1], bound, key);
    }
  }

  /** Either path, run as a whole: every counter of the group goes up by the number of times
      the group names it and has a time to live, or no counter changes and the least exhausted
      bucket is reported. Other keys are left alone. */
  lemma AllOrNothing(before: Store, bs: seq<Bucket>, bound: int, after: Store, v: Verdict, key: string)
    requires Counting(before) && (bound == SCRIPT || bound == FALLBACK)
    requires Consumes(before, bs, bound, after, v)
    ensures v.Allowed? <==> forall i :: 0 <= i < |bs| ==> !Exhausted(before, bs[i])
    ensures Count(after, key) == Count(before, key) + if v.Allowed? then Times(bs, key) else 0
    ensures v.Allowed? && Times(bs, key) > 0 ==> Pttl(after, key) >= 0
    ensures Times(bs, key) == 0 ==> (key in after <==> key in before) && (key in before ==> after[key] == before[key])
  {
    BumpedAllCounts(before, bs, bound, key);
    if v.Blocked? {
      TimesPositive(bs, v.index);
    }
  }

  lemma {:induction false} TimesPositive(bs: seq<Bucket>, i: nat)
    requires i < |bs|
    ensures Times(bs, bs[i].key) >= 1
  {
    if i < |bs| - 1 {
      TimesPositive(bs[..|bs| - 1], i);
    }
  }

  ghost predicate DistinctKeys(bs: seq<Bucket>) {
    forall i, j :: 0 <= i < j < |bs| ==> bs[i].key != bs[j].key
  }

  lemma {:induction false} DistinctTimes(bs: seq<Bucket>, i: nat)
    requires DistinctKeys(bs) && i < |bs|
    ensures Times(bs, bs[i].key) == 1
  {
    var front := bs[..|bs| - 1];
    if i < |bs| - 1 {
      DistinctTimes(front, i);
    } else {
      AbsentTimes(front, bs[i].key);
    }
  }

  lemma {:induction false} AbsentTimes(bs: seq<Bucket>, key: string)
    requires forall i :: 0 <= i < |bs| ==> bs[i].key != key
    ensures Times(bs, key) == 0
  {
    if bs != [] {
      AbsentTimes(bs[..|bs| - 1], key);
    }
  }

  /** Exactly when an allowed group leaves every counter within its limit: when each has room
      for as many hits as the group names it. */
  lemma WithinLimitsExactlyWhen(before: Store, bs: seq<Bucket>, bound: int, after: Store)
    requires Counting(before) && (bound == SCRIPT || bound == FALLBACK)
    requires Consumes(before, bs, bound, after, Allowed)
    ensures (forall i :: 0 <= i < |bs| ==> Count(after, bs[i].key) <= bs[i].limit)
       <==> (forall i :: 0 <= i < |bs| ==> Count(before, bs[i].key) + Times(bs, bs[i].key) <= bs[i].limit)
  {
    forall i | 0 <= i < |bs|
      ensures Count(after, bs[i].key) == Count(before, bs[i].key) + Times(bs, bs[i].key)
    {
      BumpedAllCounts(before, bs, bound, bs[i].key);
    }
  }

  /** Groups of different keys always do. */
  lemma DistinctStayWithinLimits(before: Store, bs: seq<Bucket>, bound: int, after: Store)
    requires Counting(before) && (bound == SCRIPT || bound == FALLBACK) && DistinctKeys(bs)
    requires Consumes(before, bs, bound, after, Allowed)
    ensures forall i :: 0 <= i < |bs| ==> Count(after, bs[i].key) <= bs[i].limit
  {
    forall i | 0 <= i < |bs|
      ensures Count(before, bs[i].key) + Times(bs, bs[i].key) <= bs[i].limit
    {
      DistinctTimes(bs, i);
      assert !Exhausted(before, bs[i]);
    }
    WithinLimitsExactlyWhen(before, bs, bound, after);
  }

  /** A group that names a key twice is checked before either hit counts, and so can pass a
      limit of one with two hits. */
  lemma RepeatedKeyOvershoots()
    ensures var b := Bucket("login", 1, 60);
      && Consumes(map[], [b, b], SCRIPT, BumpedAll(map[], [b, b], SCRIPT), Allowed)
      && Count(BumpedAll(map[], [b, b], SCRIPT), "login") == 2
  {
    var b := Bucket("login", 1, 60);
    BumpedAllCounts(map[], [b, b], SCRIPT, "login");
    assert [b, b][..1] == [b] && [b][..0] == [];
    assert Times([b, b], "login") == Times([b], "login") + 1;
  }

  /* ---- The fallback against the script ---- */

  /** The same counter, and the same time to live unless it read zero before. */
  predicate AgreeAt(before: Store, a: Store, b: Store, key: string) {
    && (key in a <==> key in b)
    && (key in a ==> a[key].value == b[key].value && (Pttl(before, key) != 0 ==> a[key] == b[key]))
  }

  lemma {:induction false} BumpedAllAgree(s: Store, bs: seq<Bucket>, key: string)
    requires Counting(s)
    ensures AgreeAt(s, BumpedAll(s, bs, SCRIPT), BumpedAll(s, bs, FALLBACK), key)
    ensures Pttl(s, key) != 0 ==> Pttl(BumpedAll(s, bs, SCRIPT), key) != 0
  {
    if bs != [] {
      var front, last := bs[..|bs| - 1], bs[|bs| - 1];
      BumpedAllAgree(s, front, key);
      BumpedAgree(s, BumpedAll(s, front, SCRIPT), BumpedAll(s, front, FALLBACK), last, key);
    }
  }

  lemma BumpedAgree(s: Store, a: Store, b: Store, last: Bucket, key: string)
    requires AgreeAt(s, a, b, key)
    requires Pttl(s, key) != 0 ==> Pttl(a, key) != 0
    ensures AgreeAt(s, Bumped(a, last, SCRIPT), Bumped(b, last, FALLBACK), key)
    ensures Pttl(s, key) != 0 ==> Pttl(Bumped(a, last, SCRIPT), key) != 0
  {}

  /** Run alone, the fallback gives the script's verdict and counters. */
  lemma FallbackRefinesScript(s: Store, bs: seq<Bucket>, a: Store, b: Store, v: Verdict, w: Verdict)
    requires Counting(s)
    requires Consumes(s, bs, SCRIPT, a, v) && Consumes(s, bs, FALLBACK, b, w)
    ensures v == w && forall key :: AgreeAt(s, a, b, key)
  {
    forall key { BumpedAllAgree(s, bs, key); }
    if v.Blocked? && w.Blocked? {
      assert v.index == w.index;
    }
  }
}
