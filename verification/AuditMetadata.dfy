/** What audit metadata may look like: the stack-based search for forbidden keys, the depth
    limit, and both against a recursive reading of the value. */
module AuditMetadata {
  import opened Common
  import opened TextRules

  /** A metadata value. Numbers, flags and texts are scalars; anything else is unsupported. */
  datatype Value =
    | Scalar
    | Unsupported
    | List(items: seq<Value>)
    | Dict(entries: seq<Entry>)

  datatype Entry = Entry(key: string, value: Value)

  datatype Problem = ForbiddenKeys | UnsupportedTypes | TooDeep | TooLarge

  const FORBIDDEN_KEYS: set<string> :=
    {"token", "raw_token", "invite_token", "token_hash", "authorization", "password", "secret",
     "api_key", "headers", "cookie", "set_cookie"}

  const MARKERS: set<string> := {"token", "password", "secret", "authorization", "cookie"}

  const MAX_DEPTH := 3
  const MAX_BYTES := 8192

  /** A key in lower case, with underscores for dashes. */
  function NormalisedKey(key: string): string {
    var lower := Lower(key);
    seq(|lower|, i requires 0 <= i < |lower| => if lower[i] == '-' then '_' else lower[i])
  }

  predicate IsForbidden(key: string) {
    var normalised := NormalisedKey(key);
    normalised in FORBIDDEN_KEYS || exists marker :: marker in MARKERS && Contains(normalised, marker)
  }

  /** A character that reads as `d`, a small letter or an underscore, when case and the two kinds
      of dashes are ignored. */
  ghost predicate ReadsAs(c: char, d: char) {
    c == d || ('A' <= c <= 'Z' && d as int == c as int + 32) || (c == '-' && d == '_')
  }

  ghost predicate ReadsAt(key: string, i: nat, word: string) {
    i + |word| <= |key| && forall j :: 0 <= j < |word| ==> ReadsAs(key[i + j], word[j])
  }

  predicate SmallLetters(word: string) { forall j :: 0 <= j < |word| ==> 'a' <= word[j] <= 'z' || word[j] == '_' }

  lemma NormalisedReads(key: string, i: nat, word: string)
    requires SmallLetters(word) && i <= |key|
    ensures StartsWith(NormalisedKey(key)[i..], word) <==> ReadsAt(key, i, word)
  {
    var n := NormalisedKey(key);
    if i + |word| <= |key| {
      assert n[i..][..|word|] == n[i..i + |word|];
      if ReadsAt(key, i, word) {
        forall j | 0 <= j < |word| ensures n[i..i + |word|][j] == word[j] { assert ReadsAs(key[i + j], word[j]); }
        assert n[i..i + |word|] == word;
      }
      if n[i..i + |word|] == word {
        forall j | 0 <= j < |word| ensures ReadsAs(key[i + j], word[j]) { assert n[i..i + |word|][j] == word[j]; }
      }
    }
  }

  lemma ContainsReads(key: string, word: string)
    requires SmallLetters(word)
    ensures Contains(NormalisedKey(key), word) <==> exists i: nat :: ReadsAt(key, i, word)
  {
    forall i: nat | i <= |key| { NormalisedReads(key, i, word); }
    if Contains(NormalisedKey(key), word) {
      var i :| 0 <= i <= |NormalisedKey(key)| && StartsWith(NormalisedKey(key)[i..], word);
      assert ReadsAt(key, i, word);
    }
    if i: nat :| ReadsAt(key, i, word) {
      assert StartsWith(NormalisedKey(key)[i..], word);
    }
  }

  lemma WholeReads(key: string, word: string)
    requires SmallLetters(word)
    ensures NormalisedKey(key) == word <==> |key| == |word| && ReadsAt(key, 0, word)
  {
    NormalisedReads(key, 0, word);
    assert NormalisedKey(key)[0..] == NormalisedKey(key);
  }

  lemma PartOf(whole: string, i: nat, part: string)
    requires i + |part| <= |whole| && whole[i..i + |part|] == part
    ensures Contains(whole, part)
  {
    assert whole[i..][..|part|] == part;
  }

  /** Every forbidden word but two contains a marker. */
  lemma MarkersCover(word: string)
    requires word in FORBIDDEN_KEYS && word != "api_key" && word != "headers"
    ensures exists marker :: marker in MARKERS && Contains(word, marker)
  {
    if word == "token" { PartOf(word, 0, "token"); }
    else if word == "raw_token" { PartOf(word, 4, "token"); }
    else if word == "invite_token" { PartOf(word, 7, "token"); }
    else if word == "token_hash" { PartOf(word, 0, "token"); }
    else if word == "authorization" { PartOf(word, 0, "authorization"); }
    else if word == "password" { PartOf(word, 0, "password"); }
    else if word == "secret" { PartOf(word, 0, "secret"); }
    else if word == "cookie" { PartOf(word, 0, "cookie"); }
    else { PartOf(word, 4, "cookie"); }
  }

  /** A key is forbidden exactly when, ignoring case and reading dashes as underscores, one of five
      words stands somewhere in it, or it is one of two further words. */
  lemma ForbiddenExactly(key: string)
    ensures IsForbidden(key) <==>
      || (exists i: nat :: ReadsAt(key, i, "token")) || (exists i: nat :: ReadsAt(key, i, "password"))
      || (exists i: nat :: ReadsAt(key, i, "secret")) || (exists i: nat :: ReadsAt(key, i, "authorization"))
      || (exists i: nat :: ReadsAt(key, i, "cookie"))
      || (|key| == 7 && ReadsAt(key, 0, "api_key")) || (|key| == 7 && ReadsAt(key, 0, "headers"))
  {
    hide ReadsAt, NormalisedKey, Contains;
    WholeReads(key, "api_key");
    WholeReads(key, "headers");
    ContainsReads(key, "token");
    ContainsReads(key, "password");
    ContainsReads(key, "secret");
    ContainsReads(key, "authorization");
    ContainsReads(key, "cookie");
    var n := NormalisedKey(key);
    if n in FORBIDDEN_KEYS && n != "api_key" && n != "headers" {
      MarkersCover(n);
    }
  }

  /* ---- The recursive reading ---- */

  /** A path into a value: which entry or item to take at each container. */
  type Path = seq<nat>

  /** The value a path leads to. */
  ghost function {:induction false} At(v: Value, path: Path): Option<Value>
    decreases |path|
  {
    if path == [] then Some(v)
    else match v
      case List(items) => if path[0] < |items| then At(items[path[0]], path[1..]) else None
      case Dict(entries) => if path[0] < |entries| then At(entries[path[0]].value, path[1..]) else None
      case _ => None
  }

  /** No key on any path into the value is forbidden. */
  ghost predicate {:induction false} Clean(v: Value) {
    match v
    case List(items) => forall i :: 0 <= i < |items| ==> Clean(items[i])
    case Dict(entries) => forall i :: 0 <= i < |entries| ==> !IsForbidden(entries[i].key) && Clean(entries[i].value)
    case _ => true
  }

  /** Clean means what it says, path by path. */
  lemma {:induction false} CleanByPaths(v: Value)
    ensures Clean(v) <==>
      forall path: Path, i: nat :: At(v, path).Some? && At(v, path).value.Dict? && i < |At(v, path).value.entries|
        ==> !IsForbidden(At(v, path).value.entries[i].key)
  {
    if Clean(v) {
      forall path: Path, i: nat | At(v, path).Some? && At(v, path).value.Dict? && i < |At(v, path).value.entries|
        ensures !IsForbidden(At(v, path).value.entries[i].key)
      {
        CleanOnPath(v, path);
      }
    } else {
      var path, i := DirtyPath(v);
    }
  }

  lemma {:induction false} CleanOnPath(v: Value, path: Path)
    requires Clean(v) && At(v, path).Some?
    ensures Clean(At(v, path).value)
    decreases |path|
  {
    if path != [] {
      match v
      case List(items) => CleanOnPath(items[path[0]], path[1..]);
      case Dict(entries) => CleanOnPath(entries[path[0]].value, path[1..]);
    }
  }

  lemma {:induction false} DirtyPath(v: Value) returns (path: Path, i: nat)
    requires !Clean(v)
    ensures At(v, path).Some? && At(v, path).value.Dict? && i < |At(v, path).value.entries|
    ensures IsForbidden(At(v, path).value.entries[i].key)
    decreases v
  {
    match v
    case List(items) =>
      var j :| 0 <= j < |items| && !Clean(items[j]);
      var rest, k := DirtyPath(items[j]);
      path, i := [j] + rest, k;
      assert path[1..] == rest;
    case Dict(entries) =>
      var j :| 0 <= j < |entries| && !(!IsForbidden(entries[j].key) && Clean(entries[j].value));
      if IsForbidden(entries[j].key) {
        path, i := [], j;
      } else {
        var rest, k := DirtyPath(entries[j].value);
        path, i := [j] + rest, k;
        assert path[1..] == rest;
      }
  }

  /* ---- The stack-based search ---- */

  /** The nodes of a value, and of the values on a stack: what the search still has to visit. */
  ghost function {:induction false} Nodes(v: Value): (n: nat)
    ensures n >= 1
  {
    match v
    case List(items) => 1 + NodesOfItems(items)
    case Dict(entries) => 1 + NodesOfEntries(entries)
    case _ => 1
  }

  ghost function {:induction false} NodesOfItems(items: seq<Value>): nat {
    if items == [] then 0 else NodesOfItems(items[..|items| - 1]) + Nodes(items[|items| - 1])
  }

  ghost function {:induction false} NodesOfEntries(entries: seq<Entry>): nat {
    if entries == [] then 0 else NodesOfEntries(entries[..|entries| - 1]) + Nodes(entries[|entries| - 1].value)
  }

  lemma {:induction false} NodesAppend(a: seq<Value>, b: seq<Value>)
    ensures NodesOfItems(a + b) == NodesOfItems(a) + NodesOfItems(b)
  {
    if b == [] {
      assert a + b == a;
    } else {
      assert (a + b)[..|a + b| - 1] == a + b[..|b| - 1];
      NodesAppend(a, b[..|b| - 1]);
    }
  }

  lemma {:induction false} NodesOfValues(entries: seq<Entry>)
    ensures NodesOfItems(Values(entries)) == NodesOfEntries(entries)
  {
    if entries != [] {
      assert Values(entries)[..|entries| - 1] == Values(entries[..|entries| - 1]);
      NodesOfValues(entries[..|entries| - 1]);
    }
  }

  function Values(entries: seq<Entry>): seq<Value> {
    seq(|entries|, i requires 0 <= i < |entries| => entries[i].value)
  }

  ghost predicate AllClean(stack: seq<Value>) { forall i :: 0 <= i < |stack| ==> Clean(stack[i]) }

  /** The loop over one dictionary: push its values unless a key is forbidden. */
  method PushEntries(stack: seq<Value>, entries: seq<Entry>) returns (clean: bool, more: seq<Value>)
    ensures clean <==> forall i :: 0 <= i < |entries| ==> !IsForbidden(entries[i].key)
    ensures clean ==> more == stack + Values(entries)
  {
    clean, more := true, stack;
    for i := 0 to |entries|
      invariant forall j :: 0 <= j < i ==> !IsForbidden(entries[j].key)
      invariant clean && more == stack + Values(entries[..i])
    {
      if IsForbidden(entries[i].key) {
        return false, more;
      }
      assert Values(entries[..i + 1]) == Values(entries[..i]) + [entries[i].value];
      more := more + [entries[i].value];
    }
    assert entries[..|entries|] == entries;
  }

  /** The search: pop a value, check its keys, push what it contains. It accepts exactly the
      values that are clean, and ends because every round leaves fewer nodes on the stack. */
  method ValidateNoForbiddenMetadataKeys(metadata: Value) returns (ok: bool)
    ensures ok <==> Clean(metadata)
  {
    var stack := [metadata];
    while stack != []
      invariant AllClean(stack) <==> Clean(metadata)
      decreases NodesOfItems(stack)
    {
      var current := stack[|stack| - 1];
      ghost var before := stack;
      stack := stack[..|stack| - 1];
      ghost var rest := stack;
      assert before == rest + [current];
      assert NodesOfItems(before) == NodesOfItems(rest) + Nodes(current);
      match current
      case Dict(entries) =>
        var clean, more := PushEntries(stack, entries);
        if !clean {
          assert !Clean(before[|before| - 1]);
          return false;
        }
        NodesAppend(rest, Values(entries));
        NodesOfValues(entries);
        assert Nodes(current) == 1 + NodesOfEntries(entries);
        stack := more;
        PushedDict(rest, current);
      case List(items) =>
        NodesAppend(rest, items);
        assert Nodes(current) == 1 + NodesOfItems(items);
        stack := stack + items;
        PushedList(rest, current);
      case _ =>
        assert AllClean(before) <==> AllClean(rest) by { assert Clean(current); PushedScalar(rest, current); }
    }
    ok := true;
  }

  lemma PushedScalar(rest: seq<Value>, current: Value)
    requires current.Scalar? || current.Unsupported?
    ensures AllClean(rest + [current]) <==> AllClean(rest)
  {
    if AllClean(rest + [current]) {
      forall i | 0 <= i < |rest| ensures Clean(rest[i]) {
        assert (rest + [current])[i] == rest[i];
      }
    }
  }

  lemma PushedDict(rest: seq<Value>, current: Value)
    requires current.Dict? && forall i :: 0 <= i < |current.entries| ==> !IsForbidden(current.entries[i].key)
    ensures AllClean(rest + Values(current.entries)) <==> AllClean(rest + [current])
  {
    var all, one := rest + Values(current.entries), rest + [current];
    if AllClean(all) {
      forall i | 0 <= i < |one| ensures Clean(one[i]) {
        if i < |rest| { assert all[i] == one[i]; }
        else {
          forall j | 0 <= j < |current.entries| ensures Clean(current.entries[j].value) {
            assert all[|rest| + j] == current.entries[j].value;
          }
        }
      }
    }
    if AllClean(one) {
      assert one[|rest|] == current;
      forall i | 0 <= i < |all| ensures Clean(all[i]) {
        if i < |rest| { assert all[i] == one[i]; }
      }
    }
  }

  lemma PushedList(rest: seq<Value>, current: Value)
    requires current.List?
    ensures AllClean(rest + current.items) <==> AllClean(rest + [current])
  {
    var all, one := rest + current.items, rest + [current];
    if AllClean(all) {
      forall i | 0 <= i < |one| ensures Clean(one[i]) {
        if i < |rest| { assert all[i] == one[i]; }
        else {
          forall j | 0 <= j < |current.items| ensures Clean(current.items[j]) {
            assert all[|rest| + j] == current.items[j];
          }
        }
      }
    }
    if AllClean(one) {
      assert one[|rest|] == current;
      forall i | 0 <= i < |all| ensures Clean(all[i]) {
        if i < |rest| { assert all[i] == one[i]; }
      }
    }
  }

  /* ---- The depth ---- */

  function Max(a: nat, b: nat): nat { if a >= b then a else b }

  /** How deep containers nest, unless something unsupported is inside. */
  function {:induction false} Depth(v: Value): Result<nat, Problem> {
    match v
    case Scalar => Success(0)
    case Unsupported => Failure(UnsupportedTypes)
    case List(items) =>
      (match DepthOfItems(items) case Failure(e) => Failure(e) case Success(d) => Success(1 + d))
    case Dict(entries) =>
      (match DepthOfEntries(entries) case Failure(e) => Failure(e) case Success(d) => Success(1 + d))
  }

  function {:induction false} DepthOfItems(items: seq<Value>): Result<nat, Problem> {
    if items == [] then Success(0)
    else match (Depth(items[0]), DepthOfItems(items[1..]))
      case (Success(a), Success(b)) => Success(Max(a, b))
      case _ => Failure(UnsupportedTypes)
  }

  function {:induction false} DepthOfEntries(entries: seq<Entry>): Result<nat, Problem> {
    if entries == [] then Success(0)
    else match (Depth(entries[0].value), DepthOfEntries(entries[1..]))
      case (Success(a), Success(b)) => Success(Max(a, b))
      case _ => Failure(UnsupportedTypes)
  }

  /** Nothing unsupported is reachable, and no path passes through more than `n` containers. */
  ghost predicate Shallow(v: Value, n: int) {
    forall path: Path :: At(v, path).Some? ==>
      !At(v, path).value.Unsupported? && |path| + (if Container(At(v, path).value) then 1 else 0) <= n
  }

  predicate Container(v: Value) { v.List? || v.Dict? }

  lemma {:induction false} DepthBoundsPath(v: Value, path: Path)
    requires Depth(v).Success? && At(v, path).Some?
    ensures !At(v, path).value.Unsupported?
    ensures |path| + (if Container(At(v, path).value) then 1 else 0) <= Depth(v).value
    decreases |path|
  {
    if path != [] {
      match v
      case List(items) =>
        DepthOfItem(items, path[0]);
        DepthBoundsPath(items[path[0]], path[1..]);
      case Dict(entries) =>
        DepthOfEntry(entries, path[0]);
        DepthBoundsPath(entries[path[0]].value, path[1..]);
    }
  }

  lemma {:induction false} DepthOfItem(items: seq<Value>, i: nat)
    requires i < |items| && DepthOfItems(items).Success?
    ensures Depth(items[i]).Success? && Depth(items[i]).value <= DepthOfItems(items).value
  {
    if i > 0 { DepthOfItem(items[1..], i - 1); }
  }

  lemma {:induction false} DepthOfEntry(entries: seq<Entry>, i: nat)
    requires i < |entries| && DepthOfEntries(entries).Success?
    ensures Depth(entries[i].value).Success? && Depth(entries[i].value).value <= DepthOfEntries(entries).value
  {
    if i > 0 { DepthOfEntry(entries[1..], i - 1); }
  }

  /** A path that reaches the full depth, or something unsupported. */
  lemma {:induction false} DeepestPath(v: Value) returns (path: Path)
    ensures At(v, path).Some?
    ensures Depth(v).Success? ==> |path| + (if Container(At(v, path).value) then 1 else 0) == Depth(v).value
    ensures Depth(v).Failure? ==> At(v, path).value.Unsupported?
    decreases v, 1
  {
    match v
    case List(items) =>
      if items == [] {
        path := [];
      } else {
        var i, rest := DeepestItem(items);
        if DepthOfItems(items).Success? && DepthOfItems(items).value == 0 {
          path := [];
        } else {
          path := [i] + rest;
          assert path[1..] == rest;
        }
      }
    case Dict(entries) =>
      if entries == [] {
        path := [];
      } else {
        var i, rest := DeepestEntry(entries);
        if DepthOfEntries(entries).Success? && DepthOfEntries(entries).value == 0 {
          path := [];
        } else {
          path := [i] + rest;
          assert path[1..] == rest;
        }
      }
    case _ => path := [];
  }

  lemma {:induction false} DeepestItem(items: seq<Value>) returns (i: nat, path: Path)
    requires items != []
    ensures i < |items| && At(items[i], path).Some?
    ensures DepthOfItems(items).Success? ==>
      |path| + (if Container(At(items[i], path).value) then 1 else 0) == DepthOfItems(items).value
    ensures DepthOfItems(items).Failure? ==> At(items[i], path).value.Unsupported?
    decreases items, 0
  {
    i := 0;
    path := DeepestPath(items[0]);
    if |items| > 1 {
      var j, other := DeepestItem(items[1..]);
      if Depth(items[0]).Success? &&
         (DepthOfItems(items[1..]).Failure? || DepthOfItems(items[1..]).value > Depth(items[0]).value) {
        i, path := j + 1, other;
      }
    }
  }

  lemma {:induction false} DeepestEntry(entries: seq<Entry>) returns (i: nat, path: Path)
    requires entries != []
    ensures i < |entries| && At(entries[i].value, path).Some?
    ensures DepthOfEntries(entries).Success? ==>
      |path| + (if Container(At(entries[i].value, path).value) then 1 else 0) == DepthOfEntries(entries).value
    ensures DepthOfEntries(entries).Failure? ==> At(entries[i].value, path).value.Unsupported?
    decreases entries, 0
  {
    i := 0;
    path := DeepestPath(entries[0].value);
    if |entries| > 1 {
      var j, other := DeepestEntry(entries[1..]);
      if Depth(entries[0].value).Success? &&
         (DepthOfEntries(entries[1..]).Failure? || DepthOfEntries(entries[1..]).value > Depth(entries[0].value).value) {
        i, path := j + 1, other;
      }
    }
  }

  /** The depth limit is exactly a limit on the containers along every path. */
  lemma DepthIsLongestNesting(v: Value, n: int)
    ensures (Depth(v).Success? && Depth(v).value <= n) <==> Shallow(v, n)
  {
    if Depth(v).Success? && Depth(v).value <= n {
      forall path: Path | At(v, path).Some?
        ensures !At(v, path).value.Unsupported? && |path| + (if Container(At(v, path).value) then 1 else 0) <= n
      {
        DepthBoundsPath(v, path);
      }
    } else {
      var path := DeepestPath(v);
    }
  }

  /** The whole check on metadata that is present; `bytes` is the size of its encoding. */
  method ValidateMetadata(metadata: Value, bytes: nat) returns (r: Result<Value, Problem>)
    ensures r.Success? <==> Clean(metadata) && Shallow(metadata, 3) && bytes <= 8192
    ensures r.Success? ==> r.value == metadata
    ensures r == Failure(ForbiddenKeys) <==> !Clean(metadata)
    ensures r == Failure(UnsupportedTypes) <==> Clean(metadata) && exists path: Path :: At(metadata, path) == Some(Unsupported)
    ensures r == Failure(TooLarge) <==> Clean(metadata) && Shallow(metadata, 3) && bytes > 8192
  {
    DepthIsLongestNesting(metadata, MAX_DEPTH);
    FailureMeansUnsupported(metadata);
    DepthFailsOneWay(metadata);
    var ok := ValidateNoForbiddenMetadataKeys(metadata);
    if !ok {
      return Failure(ForbiddenKeys);
    }
    match Depth(metadata)
    case Failure(e) => return Failure(e);
    case Success(depth) =>
      if depth > MAX_DEPTH {
        return Failure(TooDeep);
      }
      if bytes > MAX_BYTES {
        return Failure(TooLarge);
      }
      return Success(metadata);
  }

  lemma FailureMeansUnsupported(v: Value)
    ensures Depth(v).Failure? <==> exists path: Path :: At(v, path) == Some(Unsupported)
  {
    if Depth(v).Failure? {
      var path := DeepestPath(v);
    } else {
      forall path: Path ensures At(v, path) != Some(Unsupported) {
        if At(v, path).Some? { DepthBoundsPath(v, path); }
      }
    }
  }

  lemma DepthFailsOneWay(v: Value)
    ensures Depth(v).Failure? ==> Depth(v).error == UnsupportedTypes
  {
    match v
    case List(items) =>
    case Dict(entries) =>
    case _ =>
  }
}
