/** How long a rate limit window lasts, read off the keyspace before and after one consume, for the
    script and for the fallback alike. */
module RateWindows {
  import opened Common
  import opened RateLimit

  /** A group is allowed exactly when every counter in it is below its limit; a missing counter
      counts as zero. */
  lemma AllowedExactlyWhen(before: Store, bs: seq<Bucket>, bound: int, after: Store, v: Verdict)
    requires Consumes(before, bs, bound, after, v)
    ensures v.Allowed? <==>
      forall i :: 0 <= i < |bs| ==> (if bs[i].key in before then before[bs[i].key].value else 0) < bs[i].limit
    ensures v.Blocked? ==>
      && v.index < |bs|
      && (if bs[v.index].key in before then before[bs[v.index].key].value else 0) >= bs[v.index].limit
      && (forall i :: 0 <= i < v.index ==> (if bs[i].key in before then before[bs[i].key].value else 0) < bs[i].limit)
  {
    match v
    case Allowed =>
      forall i | 0 <= i < |bs| ensures (if bs[i].key in before then before[bs[i].key].value else 0) < bs[i].limit {
        assert !Exhausted(before, bs[i]);
      }
    case Blocked(index, _) =>
      assert Exhausted(before, bs[index]);
      forall i | 0 <= i < index ensures (if bs[i].key in before then before[bs[i].key].value else 0) < bs[i].limit {
        assert !Exhausted(before, bs[i]);
      }
  }

  /** What a hit makes of the expiry of a key: a new window, or the running one to the millisecond.
      Only an expiry that reads 0 is treated differently, kept by the script and renewed by the
      fallback. */
  ghost predicate WindowAfterHit(before: Store, after: Store, bound: int, key: string, window: nat) {
    && key in after
    && (key !in before ==> after[key].ttl == Some(window))
    && (key in before && before[key].ttl == None ==> after[key].ttl == Some(window))
    && (key in before && before[key].ttl == Some(0) ==>
          after[key].ttl == if bound == FALLBACK then Some(window) else Some(0))
    && (key in before && before[key].ttl.Some? && before[key].ttl.value >= 1 ==> after[key].ttl == before[key].ttl)
  }

  lemma {:induction false} WindowsOfHits(before: Store, bs: seq<Bucket>, bound: int, i: nat)
    requires bound == SCRIPT || bound == FALLBACK
    requires Counting(before) && i < |bs| && forall j :: 0 <= j < i ==> bs[j].key != bs[i].key
    ensures WindowAfterHit(before, BumpedAll(before, bs, bound), bound, bs[i].key, bs[i].expirySeconds * 1000)
    decreases |bs|
  {
    var n := |bs| - 1;
    var front, key := bs[..n], bs[i].key;
    BumpedAllCounts(before, front, bound, key);
    if i == n {
      AbsentTimes(front, key);
    } else {
      WindowsOfHits(before, front, bound, i);
      assert front[i] == bs[i];
      TimesPositive(front, i);
    }
  }

  /** After an allowed consume, by either path and with keys repeated or not, a key that was missing
      or had no expiry has the full window of its first bucket, and a running window is not
      prolonged: it keeps its expiry to the millisecond. */
  lemma AllowedKeepsWindows(before: Store, bs: seq<Bucket>, bound: int, after: Store, i: nat)
    requires bound == SCRIPT || bound == FALLBACK
    requires Counting(before) && Consumes(before, bs, bound, after, Allowed)
    requires i < |bs| && forall j :: 0 <= j < i ==> bs[j].key != bs[i].key
    ensures WindowAfterHit(before, after, bound, bs[i].key, bs[i].expirySeconds * 1000)
  {
    WindowsOfHits(before, bs, bound, i);
  }

  /** A key the group names once has one hit more afterwards, and a key it does not name is left
      alone. */
  lemma AllowedCountsOnce(before: Store, bs: seq<Bucket>, bound: int, after: Store, i: nat, other: string)
    requires bound == SCRIPT || bound == FALLBACK
    requires Counting(before) && Consumes(before, bs, bound, after, Allowed)
    requires i < |bs| && forall j :: 0 <= j < |bs| && j != i ==> bs[j].key != bs[i].key
    requires forall j :: 0 <= j < |bs| ==> bs[j].key != other
    ensures bs[i].key in after
    ensures after[bs[i].key].value == (if bs[i].key in before then before[bs[i].key].value else 0) + 1
    ensures (other in after <==> other in before) && (other in before ==> after[other] == before[other])
  {
    AllowedKeepsWindows(before, bs, bound, after, i);
    BumpedAllCounts(before, bs, bound, bs[i].key);
    NamedOnce(bs, i);
    BumpedAllCounts(before, bs, bound, other);
    AbsentTimes(bs, other);
  }

  lemma {:induction false} NamedOnce(bs: seq<Bucket>, i: nat)
    requires i < |bs| && forall j :: 0 <= j < |bs| && j != i ==> bs[j].key != bs[i].key
    ensures Times(bs, bs[i].key) == 1
    decreases |bs|
  {
    var front := bs[..|bs| - 1];
    if i == |bs| - 1 {
      AbsentTimes(front, bs[i].key);
    } else {
      NamedOnce(front, i);
    }
  }

  /** What a refusal makes of the keyspace: a running window is kept, a missing one becomes the full
      window, no counter moves, and no other key is touched. */
  lemma RefusedKeepsWindows(before: Store, bs: seq<Bucket>, bound: int, after: Store, index: nat, wait: int, other: string)
    requires bound == SCRIPT || bound == FALLBACK
    requires Consumes(before, bs, bound, after, Blocked(index, wait))
    ensures index < |bs| && after.Keys == before.Keys
    ensures var key, window := bs[index].key, bs[index].expirySeconds * 1000;
      && (other in before && other != key ==> after[other] == before[other])
      && (key in before ==>
          && after[key].value == before[key].value
          && (before[key].ttl == None ==> after[key].ttl == Some(window))
          && (before[key].ttl == Some(0) ==> after[key].ttl == if bound == FALLBACK then Some(window) else Some(0))
          && (before[key].ttl.Some? && before[key].ttl.value >= 1 ==> after[key].ttl == before[key].ttl))
  {}

  /** The milliseconds left in the window of a key, or the full window if nothing runs. */
  function LeftIn(s: Store, key: string, window: nat): nat {
    if key in s && s[key].ttl.Some? && s[key].ttl.value >= 1 then s[key].ttl.value else window
  }

  /** The reported wait is the least whole number of seconds, at least one, that covers what is left
      of the window after the refusal. */
  lemma WaitCoversWindow(before: Store, bs: seq<Bucket>, bound: int, after: Store, index: nat, wait: int)
    requires bound == SCRIPT || bound == FALLBACK
    requires Consumes(before, bs, bound, after, Blocked(index, wait))
    ensures index < |bs|
    ensures var left := LeftIn(after, bs[index].key, bs[index].expirySeconds * 1000);
      wait >= 1 && wait * 1000 >= left && (wait - 1) * 1000 < left
  {
    RefusedKeepsWindows(before, bs, bound, after, index, wait, "");
  }
}
