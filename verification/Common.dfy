/** Vocabulary shared by every module: optional values, results, and bounded queries. */
module Common {

  datatype Option<+T> = None | Some(value: T)

  datatype Result<+T, +E> = Success(value: T) | Failure(error: E)

  function Min(a: nat, b: nat): nat { if a <= b then a else b }

  ghost predicate Distinct<T(!new)>(s: seq<T>) {
    forall i, j :: 0 <= i < j < |s| ==> s[i] != s[j]
  }

  function Elements<T>(s: seq<T>): set<T> { set x | x in s }

  /** What `SELECT ... LIMIT limit` may return over the rows `matching`: as many different
      matching rows as fit. Which rows come first is left open. */
  ghost predicate IsPage<K(!new)>(page: seq<K>, matching: set<K>, limit: nat) {
    && Distinct(page)
    && (forall k :: k in page ==> k in matching)
    && |page| == Min(limit, |matching|)
  }

  method SelectPage<K(!new, ==)>(matching: set<K>, limit: nat) returns (page: seq<K>)
    ensures IsPage(page, matching, limit)
  {
    page := [];
    var rest := matching;
    while rest != {} && |page| < limit
      invariant rest <= matching
      invariant Distinct(page)
      invariant forall k :: k in page <==> k in matching && k !in rest
      invariant |page| + |rest| == |matching|
      invariant |page| <= limit
      decreases |rest|
    {
      var k :| k in rest;
      page := page + [k];
      rest := rest - {k};
    }
  }

  lemma {:induction false} DistinctSize<T(!new)>(s: seq<T>)
    requires Distinct(s)
    ensures |Elements(s)| == |s|
  {
    if s != [] {
      var front, last := s[..|s| - 1], s[|s| - 1];
      DistinctSize(front);
      assert forall i :: 0 <= i < |front| ==> front[i] == s[i] && s[i] != last;
      assert Elements(s) == Elements(front) + {last} by { assert s == front + [last]; }
    }
  }

  lemma {:induction false} SubsetSize<T(!new)>(a: set<T>, b: set<T>)
    requires a <= b
    ensures |a| <= |b|
  {
    assert b == a + (b - a);
  }

  /** A page that could hold every matching row does. */
  lemma PageHoldsAll<K(!new)>(page: seq<K>, matching: set<K>, limit: nat)
    requires IsPage(page, matching, limit) && (|page| < limit || |matching| <= limit)
    ensures forall k :: k in matching ==> k in page
  {
    DistinctSize(page);
    if exists k :: k in matching && k !in page {
      var k :| k in matching && k !in page;
      SubsetSize(Elements(page), matching - {k});
    }
  }
}
