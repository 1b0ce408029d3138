/** Working off a backlog in bounded passes: each pass takes at most a fixed number of the rows
    that still need treatment, in any order. */
module BoundedPasses {
  import opened Common

  function Due<R>(t: map<nat, R>, needs: R -> bool): set<nat> { set k | k in t && needs(t[k]) }

  function Treated<R>(t: map<nat, R>, rows: set<nat>, treat: (nat, R) -> R): map<nat, R> {
    map k | k in t :: if k in rows then treat(k, t[k]) else t[k]
  }

  /** A treated row needs no treatment. */
  ghost predicate Settles<R(!new)>(needs: R -> bool, treat: (nat, R) -> R) { forall k, r :: !needs(treat(k, r)) }

  /** One pass: load a page of the rows that need treatment, count them, and unless this is a dry
      run or there are none, treat them. */
  method Pass<R>(t: map<nat, R>, needs: R -> bool, treat: (nat, R) -> R, limit: nat, dryRun: bool)
    returns (after: map<nat, R>, affected: nat, ghost page: seq<nat>)
    ensures IsPage(page, Due(t, needs), limit)
    ensures affected == Min(limit, |Due(t, needs)|)
    ensures after == if dryRun then t else Treated(t, Elements(page), treat)
  {
    var rows := SelectPage(Due(t, needs), limit);
    page := rows;
    affected := 0;
    for i := 0 to |rows|
      invariant affected == i
    {
      assert rows[i] in Due(t, needs);
      if needs(t[rows[i]]) {
        affected := affected + 1;
      }
    }
    after := t;
    if dryRun || affected == 0 {
      assert rows == [] ==> Treated(t, Elements(page), treat) == t;
      return;
    }
    for i := 0 to |rows|
      invariant after == Treated(t, Elements(rows[..i]), treat)
    {
      assert Elements(rows[..i + 1]) == Elements(rows[..i]) + {rows[i]};
      assert rows[i] in Due(t, needs) && rows[i] !in Elements(rows[..i]);
      after := after[rows[i] := treat(rows[i], after[rows[i]])];
    }
    assert rows[..|rows|] == rows;
  }

  /** The tables before and after each of a series of passes over a backlog nothing is added to. */
  ghost predicate Series<R(!new)>(
    ts: seq<map<nat, R>>, pages: seq<seq<nat>>, needs: R -> bool, treat: (nat, R) -> R, limit: nat)
  {
    && |ts| == |pages| + 1
    && forall i :: 0 <= i < |pages| ==>
         IsPage(pages[i], Due(ts[i], needs), limit) && ts[i + 1] == Treated(ts[i], Elements(pages[i]), treat)
  }

  ghost function {:induction false} TotalLength(pages: seq<seq<nat>>): nat {
    if pages == [] then 0 else TotalLength(pages[..|pages| - 1]) + |pages[|pages| - 1]|
  }

  /** What is left of `n` rows after `passes` passes. */
  function Left(n: nat, limit: nat, passes: nat): nat { if n <= passes * limit then 0 else n - passes * limit }

  lemma PassShrinksBacklog<R(!new)>(t: map<nat, R>, page: seq<nat>, needs: R -> bool, treat: (nat, R) -> R, limit: nat)
    requires Settles(needs, treat) && IsPage(page, Due(t, needs), limit)
    ensures Due(Treated(t, Elements(page), treat), needs) == Due(t, needs) - Elements(page)
    ensures |Due(Treated(t, Elements(page), treat), needs)| == |Due(t, needs)| - Min(limit, |Due(t, needs)|)
  {
    var after := Treated(t, Elements(page), treat);
    forall k ensures k in Due(after, needs) <==> k in Due(t, needs) - Elements(page) {
      if k in Elements(page) {
        assert !needs(treat(k, t[k]));
      }
    }
    assert Due(after, needs) == Due(t, needs) - Elements(page);
    assert Elements(page) <= Due(t, needs);
    DistinctSize(page);
    assert Due(t, needs) == Due(after, needs) + Elements(page);
  }

  /** After any number of passes exactly the rows are left that did not fit, and the counts
      reported on the way add up to what was done. */
  lemma {:induction false} SeriesLeaves<R(!new)>(
    ts: seq<map<nat, R>>, pages: seq<seq<nat>>, needs: R -> bool, treat: (nat, R) -> R, limit: nat)
    requires Settles(needs, treat) && Series(ts, pages, needs, treat, limit)
    ensures |Due(ts[|pages|], needs)| == Left(|Due(ts[0], needs)|, limit, |pages|)
    ensures TotalLength(pages) + |Due(ts[|pages|], needs)| == |Due(ts[0], needs)|
    decreases |pages|
  {
    hide Due, Treated;
    if pages != [] {
      var last := |pages| - 1;
      SeriesPrefix(ts, pages, needs, treat, limit);
      SeriesLeaves(ts[..last + 1], pages[..last], needs, treat, limit);
      LastPass(ts, pages, needs, treat, limit);
      LeftAfterOneMore(|Due(ts[0], needs)|, limit, last);
    }
  }

  lemma SeriesPrefix<R(!new)>(
    ts: seq<map<nat, R>>, pages: seq<seq<nat>>, needs: R -> bool, treat: (nat, R) -> R, limit: nat)
    requires Series(ts, pages, needs, treat, limit) && pages != []
    ensures Series(ts[..|pages|], pages[..|pages| - 1], needs, treat, limit)
  {
    hide Due, Treated, IsPage;
    var front := ts[..|pages|];
    forall i | 0 <= i < |pages| - 1
      ensures IsPage(pages[..|pages| - 1][i], Due(front[i], needs), limit)
              && front[i + 1] == Treated(front[i], Elements(pages[..|pages| - 1][i]), treat)
    {
      assert front[i] == ts[i] && front[i + 1] == ts[i + 1] && pages[..|pages| - 1][i] == pages[i];
    }
  }

  lemma LastPass<R(!new)>(
    ts: seq<map<nat, R>>, pages: seq<seq<nat>>, needs: R -> bool, treat: (nat, R) -> R, limit: nat)
    requires Settles(needs, treat) && Series(ts, pages, needs, treat, limit) && pages != []
    ensures |Due(ts[|pages|], needs)| + |pages[|pages| - 1]| == |Due(ts[|pages| - 1], needs)|
    ensures |pages[|pages| - 1]| == Min(limit, |Due(ts[|pages| - 1], needs)|)
  {
    hide Due, Treated, Settles;
    var last := |pages| - 1;
    assert IsPage(pages[last], Due(ts[last], needs), limit) && ts[last + 1] == Treated(ts[last], Elements(pages[last]), treat);
    PassShrinksBacklog(ts[last], pages[last], needs, treat, limit);
  }

  lemma LeftAfterOneMore(n: nat, limit: nat, passes: nat)
    ensures Left(n, limit, passes + 1) == Left(n, limit, passes) - Min(limit, Left(n, limit, passes))
  {
    assert (passes + 1) * limit == passes * limit + limit;
  }

  /** The number of passes a backlog of `n` rows takes. */
  function PassesNeeded(n: nat, limit: nat): nat
    requires limit >= 1
  {
    (n + limit - 1) / limit
  }

  lemma PassesNeededIsLeast(n: nat, limit: nat, passes: nat)
    requires limit >= 1
    ensures n <= passes * limit <==> passes >= PassesNeeded(n, limit)
  {
    var q := PassesNeeded(n, limit);
    assert q * limit <= n + limit - 1 < q * limit + limit;
    if passes >= q {
      assert passes * limit >= q * limit by { Monotone(q, passes, limit); }
    } else {
      assert passes * limit <= (q - 1) * limit by { Monotone(passes, q - 1, limit); }
      assert (q - 1) * limit == q * limit - limit;
    }
  }

  lemma {:induction false} Monotone(a: int, b: int, c: nat)
    requires a <= b
    ensures a * c <= b * c
  {
    if c > 0 {
      Monotone(a, b, c - 1);
      assert a * c == a * (c - 1) + a && b * c == b * (c - 1) + b;
    }
  }

  /** A backlog of `n` rows is cleared after ceil(n / limit) passes and not before, and by then the
      reported counts add up to `n`. */
  lemma BacklogDrains<R(!new)>(
    ts: seq<map<nat, R>>, pages: seq<seq<nat>>, needs: R -> bool, treat: (nat, R) -> R, limit: nat)
    requires limit >= 1 && Settles(needs, treat) && Series(ts, pages, needs, treat, limit)
    ensures var n := |Due(ts[0], needs)|;
      && (Due(ts[|pages|], needs) == {} <==> |pages| >= PassesNeeded(n, limit))
      && (|pages| >= PassesNeeded(n, limit) ==> TotalLength(pages) == n)
  {
    SeriesLeaves(ts, pages, needs, treat, limit);
    PassesNeededIsLeast(|Due(ts[0], needs)|, limit, |pages|);
  }
}
