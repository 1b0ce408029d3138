/** The string operations the services and the database apply to addresses and keys. */
module TextRules {

  /** `str.isspace` on ASCII. */
  predicate IsSpace(c: char) {
    c == ' ' || ('\t' <= c <= '\r') || (28 as char <= c <= 31 as char)
  }

  predicate IsBlank(s: string) { forall i :: 0 <= i < |s| ==> IsSpace(s[i]) }

  function LowerChar(c: char): char {
    if 'A' <= c <= 'Z' then ((c as int) + 32) as char else c
  }

  /** `lower()`, of Python and of SQL alike, on ASCII. */
  function Lower(s: string): (r: string)
    ensures |r| == |s|
    ensures forall i :: 0 <= i < |s| ==> r[i] == LowerChar(s[i])
  {
    seq(|s|, i requires 0 <= i < |s| => LowerChar(s[i]))
  }

  predicate StartsWith(s: string, prefix: string) {
    |prefix| <= |s| && s[..|prefix|] == prefix
  }

  predicate EndsWith(s: string, suffix: string) {
    |suffix| <= |s| && s[|s| - |suffix|..] == suffix
  }

  predicate Contains(s: string, part: string) {
    exists i :: 0 <= i <= |s| && StartsWith(s[i..], part)
  }

  function {:induction false} TrimLeft(s: string, space: char -> bool): (r: string)
    ensures r == [] || !space(r[0])
    ensures |r| <= |s| && r == s[|s| - |r|..]
  {
    if s != [] && space(s[0]) then TrimLeft(s[1..], space) else s
  }

  function {:induction false} TrimRight(s: string, space: char -> bool): (r: string)
    ensures r == [] || !space(r[|r| - 1])
    ensures |r| <= |s| && r == s[..|r|]
  {
    if s != [] && space(s[|s| - 1]) then TrimRight(s[..|s| - 1], space) else s
  }

  /** Python's `strip()`: all white space. */
  function Strip(s: string): string { TrimRight(TrimLeft(s, IsSpace), IsSpace) }

  /** SQL's `trim()`: blanks only. */
  function Trim(s: string): string { TrimRight(TrimLeft(s, c => c == ' '), c => c == ' ') }

  /** `value.strip().lower()`, how the services normalise an address. */
  function Normalised(s: string): string { Lower(Strip(s)) }

  /** `lower(trim(value))`, how queries normalise an address. */
  function SqlNormalised(s: string): string { Lower(Trim(s)) }

  /** The decimal numeral standing for an identifier. */
  function {:induction false} Decimal(n: nat): (r: string)
    ensures |r| > 0
    ensures forall i :: 0 <= i < |r| ==> '0' <= r[i] <= '9'
    decreases n
  {
    var digit := [('0' as int + n % 10) as char];
    if n < 10 then digit else Decimal(n / 10) + digit
  }

  /* ---- Where the two normal forms agree ---- */

  lemma {:induction false} TrimLeftStops(s: string, space: char -> bool)
    requires s == [] || !space(s[0])
    ensures TrimLeft(s, space) == s
  {}

  lemma LowerKeepsSpace(c: char)
    ensures IsSpace(LowerChar(c)) == IsSpace(c)
    ensures (LowerChar(c) == ' ') == (c == ' ')
  {}

  /** A text without white space at either end is its own normal form, up to case. */
  lemma StripFixpoint(s: string)
    requires s == [] || (!IsSpace(s[0]) && !IsSpace(s[|s| - 1]))
    ensures Strip(s) == s
  {}

  lemma TrimFixpoint(s: string)
    requires s == [] || (s[0] != ' ' && s[|s| - 1] != ' ')
    ensures Trim(s) == s
  {}

  /** If a query matches an address with a stripped one, so does the service: SQL can only
      leave more white space in place, never less. */
  lemma {:induction false} QueryMatchIsServiceMatch(s: string, wanted: string)
    requires wanted != [] && Strip(wanted) == wanted
    requires SqlNormalised(s) == wanted
    ensures Normalised(s) == wanted
  {
    var trimmed := Trim(s);
    assert |trimmed| == |wanted|;
    assert !IsSpace(wanted[0]) && !IsSpace(wanted[|wanted| - 1]) by { StripEnds(wanted); }
    assert wanted[0] == LowerChar(trimmed[0]);
    assert wanted[|wanted| - 1] == LowerChar(trimmed[|trimmed| - 1]);
    LowerKeepsSpace(trimmed[0]);
    LowerKeepsSpace(trimmed[|trimmed| - 1]);
    StripOfTrim(s);
    StripFixpoint(trimmed);
  }

  lemma StripEnds(s: string)
    requires s != [] && Strip(s) == s
    ensures !IsSpace(s[0]) && !IsSpace(s[|s| - 1])
  {
    var left := TrimLeft(s, IsSpace);
    assert |left| <= |s|;
    assert left == s;
  }

  /** Stripping after trimming blanks is stripping. */
  lemma {:induction false} StripOfTrim(s: string)
    ensures Strip(Trim(s)) == Strip(s)
  {
    var blank := (c: char) => c == ' ';
    var left := TrimLeft(s, blank);
    StripIgnoresLeading(s, blank);
    StripIgnoresTrailing(left, blank);
  }

  lemma {:induction false} StripIgnoresLeading(s: string, space: char -> bool)
    requires forall c :: space(c) ==> IsSpace(c)
    ensures Strip(TrimLeft(s, space)) == Strip(s)
  {
    if s != [] && space(s[0]) {
      StripIgnoresLeading(s[1..], space);
    }
  }

  lemma {:induction false} StripIgnoresTrailing(s: string, space: char -> bool)
    requires forall c :: space(c) ==> IsSpace(c)
    ensures Strip(TrimRight(s, space)) == Strip(s)
  {
    if s != [] && space(s[|s| - 1]) {
      StripIgnoresTrailing(s[..|s| - 1], space);
      StripDropsLast(s);
    }
  }

  lemma {:induction false} StripDropsLast(s: string)
    requires s != [] && IsSpace(s[|s| - 1])
    ensures Strip(s[..|s| - 1]) == Strip(s)
  {
    var front := s[..|s| - 1];
    if IsSpace(s[0]) {
      if |s| > 1 {
        hide IsSpace, TrimRight;
        StripDropsLast(s[1..]);
        assert front[0] == s[0] && front[1..] == s[1..][..|s[1..]| - 1];
        assert TrimLeft(front, IsSpace) == TrimLeft(front[1..], IsSpace);
        assert TrimLeft(s, IsSpace) == TrimLeft(s[1..], IsSpace);
      } else {
        assert s[1..] == [] && front == [];
      }
    } else {
      hide IsSpace;
      TrimLeftStops(s, IsSpace);
      TrimLeftStops(front, IsSpace);
    }
  }

  /* ---- Texts in normal form ---- */

  lemma StripHasNoOuterSpace(s: string)
    requires Strip(s) != []
    ensures !IsSpace(Strip(s)[0]) && !IsSpace(Strip(s)[|Strip(s)| - 1])
  {
    hide IsSpace, TrimLeft, TrimRight;
    var left := TrimLeft(s, IsSpace);
    var stripped := TrimRight(left, IsSpace);
    assert Strip(s) == stripped && stripped[0] == left[0];
  }

  lemma LowerTwice(s: string)
    ensures Lower(Lower(s)) == Lower(s)
  {}

  lemma NormalisedTwice(s: string)
    ensures Normalised(Normalised(s)) == Normalised(s)
  {
    hide Strip, IsSpace, LowerChar;
    var t := Strip(s);
    var u := Lower(t);
    if t != [] {
      StripHasNoOuterSpace(s);
      LowerKeepsSpace(t[0]);
      LowerKeepsSpace(t[|t| - 1]);
    }
    StripFixpoint(u);
    LowerTwice(t);
  }

  /** A normalised address is normal for the database too: queries find what services store. */
  lemma NormalisedIsSqlNormal(s: string)
    ensures SqlNormalised(Normalised(s)) == Normalised(s)
  {
    hide Strip, Trim, IsSpace, LowerChar;
    var t := Strip(s);
    var u := Lower(t);
    BlankIsSpace();
    if t != [] {
      StripHasNoOuterSpace(s);
      LowerKeepsSpace(t[0]);
      LowerKeepsSpace(t[|t| - 1]);
    }
    TrimFixpoint(u);
    LowerTwice(t);
  }

  /** Lower case and free of white space. */
  ghost predicate Plain(s: string) { forall i :: 0 <= i < |s| ==> !('A' <= s[i] <= 'Z') && !IsSpace(s[i]) }

  lemma PlainIsNormal(s: string)
    requires Plain(s)
    ensures SqlNormalised(s) == s && Normalised(s) == s
  {
    hide Strip, Trim, IsSpace;
    LowerOfPlain(s);
    if s != [] {
      assert !IsSpace(s[0]) && !IsSpace(s[|s| - 1]);
      BlankIsSpace();
    }
    StripFixpoint(s);
    TrimFixpoint(s);
  }

  lemma BlankIsSpace()
    ensures IsSpace(' ')
  {}

  lemma LowerOfPlain(s: string)
    requires Plain(s)
    ensures Lower(s) == s
  {
    hide IsSpace;
    forall i | 0 <= i < |s| ensures LowerChar(s[i]) == s[i] {}
  }

  lemma PlainConcat(a: string, b: string)
    requires Plain(a) && Plain(b)
    ensures Plain(a + b)
  {}

  /* ---- What the operations mean ---- */

  /** The same text but for the case of ASCII letters. */
  ghost predicate SameButCase(a: string, b: string) {
    && |a| == |b|
    && forall i :: 0 <= i < |a| ==>
         || a[i] == b[i]
         || ('A' <= a[i] <= 'Z' && b[i] as int == a[i] as int + 32)
         || ('A' <= b[i] <= 'Z' && a[i] as int == b[i] as int + 32)
  }

  lemma LowerExactly(a: string, b: string)
    ensures Lower(a) == Lower(b) <==> SameButCase(a, b)
    ensures Lower(a) == a <==> forall i :: 0 <= i < |a| ==> !('A' <= a[i] <= 'Z')
  {
    if Lower(a) == Lower(b) {
      assert |Lower(a)| == |Lower(b)|;
      forall i | 0 <= i < |a|
        ensures || a[i] == b[i]
                || ('A' <= a[i] <= 'Z' && b[i] as int == a[i] as int + 32)
                || ('A' <= b[i] <= 'Z' && a[i] as int == b[i] as int + 32)
      {
        assert Lower(a)[i] == Lower(b)[i];
      }
    }
    if Lower(a) == a {
      forall i | 0 <= i < |a| ensures !('A' <= a[i] <= 'Z') { assert Lower(a)[i] == a[i]; }
    }
  }

  lemma {:induction false} TrimLeftAt(s: string, space: char -> bool, n: nat)
    requires n <= |s| && (forall i :: 0 <= i < n ==> space(s[i])) && (n < |s| ==> !space(s[n]))
    ensures TrimLeft(s, space) == s[n..]
    decreases n
  {
    if n == 0 {
      assert s[0..] == s;
    } else {
      TrimLeftAt(s[1..], space, n - 1);
      assert s[1..][n - 1..] == s[n..];
    }
  }

  lemma {:induction false} TrimRightAt(s: string, space: char -> bool, n: nat)
    requires n <= |s| && (forall i :: n <= i < |s| ==> space(s[i])) && (n > 0 ==> !space(s[n - 1]))
    ensures TrimRight(s, space) == s[..n]
    decreases |s|
  {
    if n == |s| {
      assert s[..n] == s;
    } else {
      TrimRightAt(s[..|s| - 1], space, n);
      assert s[..|s| - 1][..n] == s[..n];
    }
  }

  lemma TrimmedAt(s: string, space: char -> bool, n: nat, m: nat)
    requires n <= m <= |s|
    requires forall i :: 0 <= i < n ==> space(s[i])
    requires forall i :: m <= i < |s| ==> space(s[i])
    requires n < m ==> !space(s[n]) && !space(s[m - 1])
    ensures TrimRight(TrimLeft(s, space), space) == s[n..m]
  {
    if n < m {
      TrimLeftAt(s, space, n);
      TrimDropped(s, space, n, m);
    } else {
      TrimLeftAt(s, space, |s|);
    }
  }

  lemma TrimDropped(s: string, space: char -> bool, n: nat, m: nat)
    requires n < m <= |s| && !space(s[m - 1])
    requires forall i :: m <= i < |s| ==> space(s[i])
    ensures TrimRight(s[n..], space) == s[n..m]
  {
    var t := s[n..];
    assert t[m - n - 1] == s[m - 1];
    assert t[..m - n] == s[n..m];
    TrimRightAt(t, space, m - n);
  }

  /** `strip()` takes off the white space at both ends, and nothing else. */
  lemma StripExactly(s: string, n: nat, m: nat)
    requires n <= m <= |s|
    requires forall i :: 0 <= i < n || m <= i < |s| ==> s[i] as int in {9, 10, 11, 12, 13, 28, 29, 30, 31, 32}
    requires n < m ==> s[n] as int !in {9, 10, 11, 12, 13, 28, 29, 30, 31, 32}
                       && s[m - 1] as int !in {9, 10, 11, 12, 13, 28, 29, 30, 31, 32}
    ensures Strip(s) == s[n..m]
  {
    TrimmedAt(s, IsSpace, n, m);
  }

  /** SQL's `trim()` takes off blanks only. */
  lemma TrimExactly(s: string, n: nat, m: nat)
    requires n <= m <= |s| && (forall i :: 0 <= i < n || m <= i < |s| ==> s[i] == ' ')
    requires n < m ==> s[n] != ' ' && s[m - 1] != ' '
    ensures Trim(s) == s[n..m]
  {
    TrimmedAt(s, c => c == ' ', n, m);
  }

  /** The number a numeral stands for. */
  function {:induction false} NumberOf(digits: string): int {
    if digits == "" then 0 else NumberOf(digits[..|digits| - 1]) * 10 + (digits[|digits| - 1] as int - '0' as int)
  }

  /** Numerals stand for the identifiers they are made from, so different identifiers have
      different ones. */
  lemma {:induction false} DecimalExactly(n: nat)
    ensures NumberOf(Decimal(n)) == n
    decreases n
  {
    var d := Decimal(n);
    if n < 10 {
      assert d[..|d| - 1] == "";
    } else {
      DecimalExactly(n / 10);
      assert d[..|d| - 1] == Decimal(n / 10);
    }
  }
}
