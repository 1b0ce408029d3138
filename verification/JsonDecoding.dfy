/** A reader for canonical JSON text, and the proof that it undoes the encoder. Encoded values
    are therefore told apart by their texts, and no text of an object or array is the
    beginning of another one. */
module JsonDecoding {
  import opened Common
  import opened TextRules
  import opened Json

  predicate IsDigit(c: char) { '0' <= c <= '9' }

  function {:induction false} LeadingDigits(s: string): (n: nat)
    ensures n <= |s|
  {
    if s != [] && IsDigit(s[0]) then 1 + LeadingDigits(s[1..]) else 0
  }

  function {:induction false} NatOf(digits: string): nat
    requires forall i :: 0 <= i < |digits| ==> IsDigit(digits[i])
  {
    if digits == [] then 0
    else
      assert IsDigit(digits[|digits| - 1]);
      10 * NatOf(digits[..|digits| - 1]) + (digits[|digits| - 1] as int - '0' as int)
  }

  lemma {:induction false} LeadingAreDigits(s: string, i: nat)
    requires i < LeadingDigits(s)
    ensures IsDigit(s[i])
  {
    if i > 0 { LeadingAreDigits(s[1..], i - 1); }
  }

  function ReadNat(s: string): Option<(nat, string)> {
    var n := LeadingDigits(s);
    if n == 0 then None
    else
      assert forall i :: 0 <= i < n ==> IsDigit(s[i]) by {
        forall i | 0 <= i < n { LeadingAreDigits(s, i); }
      }
      Some((NatOf(s[..n]), s[n..]))
  }

  function HexValue(c: char): Option<nat> {
    if IsDigit(c) then Some(c as int - '0' as int)
    else if 'a' <= c <= 'f' then Some(c as int - 'a' as int + 10)
    else None
  }

  /** One character of a string body, which is not the closing quote. */
  function ReadChar(s: string): (r: Option<(char, string)>)
    ensures r.Some? ==> |r.value.1| < |s|
  {
    if s == [] || s[0] < ' ' then None
    else if s[0] != '\\' then Some((s[0], s[1..]))
    else if |s| < 2 then None
    else if s[1] == '"' || s[1] == '\\' then Some((s[1], s[2..]))
    else if s[1] == 'n' then Some(('\n', s[2..]))
    else if s[1] == 'r' then Some(('\r', s[2..]))
    else if s[1] == 't' then Some(('\t', s[2..]))
    else if s[1] == 'b' then Some((8 as char, s[2..]))
    else if s[1] == 'f' then Some((12 as char, s[2..]))
    else if s[1] == 'u' && |s| >= 6 && s[2] == '0' && s[3] == '0'
            && HexValue(s[4]).Some? && HexValue(s[5]).Some? then
      Some(((16 * HexValue(s[4]).value + HexValue(s[5]).value) as char, s[6..]))
    else None
  }

  /** A string body up to and including the closing quote. */
  function {:induction false} ReadBody(s: string): (r: Option<(string, string)>)
    ensures r.Some? ==> |r.value.1| < |s|
    decreases |s|
  {
    if s == [] then None
    else if s[0] == '"' then Some(("", s[1..]))
    else match ReadChar(s)
      case None => None
      case Some((c, rest)) =>
        match ReadBody(rest)
        case None => None
        case Some((text, after)) => Some(([c] + text, after))
  }

  /** One value at the front of a text, and what follows it. */
  function {:induction false} Read(s: string): (r: Option<(Json, string)>)
    ensures r.Some? ==> |r.value.1| < |s|
    decreases |s|, 0
  {
    if s == [] then None
    else if s[0] == 'n' then if StartsWith(s, "null") then Some((JNull, s[4..])) else None
    else if s[0] == 't' then if StartsWith(s, "true") then Some((JBool(true), s[4..])) else None
    else if s[0] == 'f' then if StartsWith(s, "false") then Some((JBool(false), s[5..])) else None
    else if s[0] == '"' then
      (match ReadBody(s[1..]) case None => None case Some((text, rest)) => Some((JString(text), rest)))
    else if s[0] == '-' then
      (match ReadNat(s[1..]) case None => None case Some((n, rest)) => Some((JInt(-(n as int)), rest)))
    else if IsDigit(s[0]) then
      (match ReadNat(s) case None => None case Some((n, rest)) => Some((JInt(n), rest)))
    else if s[0] == '[' then
      if |s| >= 2 && s[1] == ']' then Some((JArray([]), s[2..]))
      else (match ReadItems(s[1..]) case None => None case Some((items, rest)) => Some((JArray(items), rest)))
    else if s[0] == '{' then
      if |s| >= 2 && s[1] == '}' then Some((JObject([]), s[2..]))
      else (match ReadMembers(s[1..]) case None => None case Some((members, rest)) => Some((JObject(members), rest)))
    else None
  }

  /** The items of a non-empty array up to and including the closing bracket. */
  function {:induction false} ReadItems(s: string): (r: Option<(seq<Json>, string)>)
    ensures r.Some? ==> |r.value.1| < |s|
    decreases |s|, 1
  {
    match Read(s)
    case None => None
    case Some((v, rest)) =>
      if rest == [] then None
      else if rest[0] == ']' then Some(([v], rest[1..]))
      else if rest[0] != ',' then None
      else match ReadItems(rest[1..])
        case None => None
        case Some((more, after)) => Some(([v] + more, after))
  }

  /** The members of a non-empty object up to and including the closing brace. */
  function {:induction false} ReadMembers(s: string): (r: Option<(seq<Member>, string)>)
    ensures r.Some? ==> |r.value.1| < |s|
    decreases |s|, 1
  {
    if s == [] || s[0] != '"' then None
    else match ReadBody(s[1..])
      case None => None
      case Some((name, colon)) =>
        if colon == [] || colon[0] != ':' then None
        else match Read(colon[1..])
          case None => None
          case Some((v, rest)) =>
            if rest == [] then None
            else if rest[0] == '}' then Some(([Member(name, v)], rest[1..]))
            else if rest[0] != ',' then None
            else match ReadMembers(rest[1..])
              case None => None
              case Some((more, after)) => Some(([Member(name, v)] + more, after))
  }

  /* ---- Reading undoes encoding ---- */

  lemma ReadEscaped(c: char, rest: string)
    ensures Escaped(c)[0] != '"'
    ensures ReadChar(Escaped(c) + rest) == Some((c, rest))
  {
    var s := Escaped(c) + rest;
    assert s[|Escaped(c)|..] == rest;
  }

  lemma {:induction false} ReadEscapedAll(text: string, rest: string)
    ensures ReadBody(EscapedAll(text) + ['"'] + rest) == Some((text, rest))
  {
    hide ReadChar, Escaped;
    var s := EscapedAll(text) + ['"'] + rest;
    if text == [] {
      assert s[1..] == rest;
    } else {
      var tail := EscapedAll(text[1..]) + ['"'] + rest;
      assert s == Escaped(text[0]) + tail;
      ReadEscaped(text[0], tail);
      ReadEscapedAll(text[1..], rest);
      assert text == [text[0]] + text[1..];
    }
  }

  lemma ReadQuoted(text: string, rest: string)
    ensures (Quoted(text) + rest)[0] == '"'
    ensures ReadBody((Quoted(text) + rest)[1..]) == Some((text, rest))
  {
    assert (Quoted(text) + rest)[1..] == EscapedAll(text) + ['"'] + rest;
    ReadEscapedAll(text, rest);
  }

  lemma {:induction false} LeadingDigitsOf(digits: string, rest: string)
    requires forall i :: 0 <= i < |digits| ==> IsDigit(digits[i])
    requires rest == [] || !IsDigit(rest[0])
    ensures LeadingDigits(digits + rest) == |digits|
  {
    if digits == [] {
      assert digits + rest == rest;
    } else {
      assert (digits + rest)[1..] == digits[1..] + rest;
      LeadingDigitsOf(digits[1..], rest);
    }
  }

  lemma {:induction false} NatOfDecimal(n: nat)
    ensures NatOf(Decimal(n)) == n
    decreases n
  {
    if n < 10 {
      assert Decimal(n)[..|Decimal(n)| - 1] == [];
    } else {
      NatOfDecimal(n / 10);
      assert Decimal(n)[..|Decimal(n)| - 1] == Decimal(n / 10);
    }
  }

  lemma ReadDecimal(n: nat, rest: string)
    requires rest == [] || !IsDigit(rest[0])
    ensures ReadNat(Decimal(n) + rest) == Some((n, rest))
  {
    var s := Decimal(n) + rest;
    LeadingDigitsOf(Decimal(n), rest);
    NatOfDecimal(n);
    assert s[..|Decimal(n)|] == Decimal(n) && s[|Decimal(n)|..] == rest;
  }

  /** What may follow a value inside a document. */
  predicate Delimited(rest: string) { rest == [] || rest[0] in {',', ']', '}'} }

  lemma ReadLiteral(literal: string, rest: string)
    ensures StartsWith(literal + rest, literal) && (literal + rest)[|literal|..] == rest
  {
    assert (literal + rest)[..|literal|] == literal;
  }

  lemma ReadFromMinus(s: string, n: nat, rest: string)
    requires s != [] && s[0] == '-' && ReadNat(s[1..]) == Some((n, rest))
    ensures Read(s) == Some((JInt(-(n as int)), rest))
  {}

  lemma ReadFromDigit(s: string, n: nat, rest: string)
    requires s != [] && IsDigit(s[0]) && ReadNat(s) == Some((n, rest))
    ensures Read(s) == Some((JInt(n), rest))
  {}

  lemma ReadFromBrace(s: string, members: seq<Member>, rest: string)
    requires |s| >= 2 && s[0] == '{' && s[1] != '}' && ReadMembers(s[1..]) == Some((members, rest))
    ensures Read(s) == Some((JObject(members), rest))
  {}

  lemma ReadFromEmptyBraces(s: string, rest: string)
    requires |s| >= 2 && s[0] == '{' && s[1] == '}' && s[2..] == rest
    ensures Read(s) == Some((JObject([]), rest))
  {}

  lemma BracesText(members: seq<Member>, rest: string)
    requires members != []
    ensures Encode(JObject(members)) + rest == "{" + (EncodeMembers(members) + ("}" + rest))
    ensures (EncodeMembers(members) + ("}" + rest))[0] == '"'
  {
    MemberText(members, rest);
  }

  lemma ReadNumeral(n: int, rest: string)
    requires Delimited(rest)
    ensures Read(Numeral(n) + rest) == Some((JInt(n), rest))
  {
    hide Read, ReadNat, Decimal;
    var s := Numeral(n) + rest;
    if n < 0 {
      assert s[1..] == Decimal(-n) + rest;
      ReadDecimal(-n, rest);
      ReadFromMinus(s, -n, rest);
    } else {
      ReadDecimal(n, rest);
      ReadFromDigit(s, n, rest);
    }
  }

  lemma ReadWord(v: Json, rest: string)
    requires v.JNull? || v.JBool?
    ensures Read(Encode(v) + rest) == Some((v, rest))
  {
    var word := Encode(v);
    assert word == "null" || word == "true" || word == "false";
    ReadLiteral(word, rest);
  }

  /** Round trip: reading an encoded value gives the value back, and exactly the text after it. */
  lemma {:induction false} ReadEncoded(v: Json, rest: string)
    requires Delimited(rest)
    ensures Read(Encode(v) + rest) == Some((v, rest))
    decreases v, 1
  {
    match v
    case JNull => ReadWord(v, rest);
    case JBool(_) => ReadWord(v, rest);
    case JInt(n) => ReadNumeral(n, rest);
    case JString(text) => ReadQuoted(text, rest);
    case JArray(items) =>
      if items != [] {
        ReadEncodedItems(items, rest);
      }
      ReadArray(items, rest);
    case JObject(members) =>
      if members != [] {
        ReadEncodedMembers(members, rest);
      }
      ReadBraces(members, rest);
  }

  lemma ReadArray(items: seq<Json>, rest: string)
    requires items != [] ==> ReadItems(EncodeItems(items) + ("]" + rest)) == Some((items, rest))
    ensures Read(Encode(JArray(items)) + rest) == Some((JArray(items), rest))
  {
    hide Read, ReadItems, EncodeItems;
    if items == [] {
      EmptyBrackets();
      assert ("[]" + rest)[2..] == rest;
      ReadFromEmptyBrackets("[]" + rest, rest);
    } else {
      FirstOfItem(items);
      var inside := EncodeItems(items) + ("]" + rest);
      BracketsText(EncodeItems(items), rest);
      ReadFromBracket("[" + inside, inside, items, rest);
    }
  }

  lemma EmptyBrackets()
    ensures Encode(JArray([])) == "[]"
  {}

  lemma BracketsText(inside: string, rest: string)
    ensures ("[" + inside + "]") + rest == "[" + (inside + ("]" + rest))
    ensures ("[" + (inside + ("]" + rest)))[1..] == inside + ("]" + rest)
  {}

  lemma ReadFromEmptyBrackets(s: string, rest: string)
    requires |s| >= 2 && s[0] == '[' && s[1] == ']' && s[2..] == rest
    ensures Read(s) == Some((JArray([]), rest))
  {}

  lemma ReadFromBracket(s: string, inside: string, items: seq<Json>, rest: string)
    requires s != [] && s[0] == '[' && s[1..] == inside && inside != [] && inside[0] != ']'
    requires ReadItems(inside) == Some((items, rest))
    ensures Read(s) == Some((JArray(items), rest))
  {}

  lemma ReadBraces(members: seq<Member>, rest: string)
    requires members != [] ==> ReadMembers(EncodeMembers(members) + ("}" + rest)) == Some((members, rest))
    ensures Read(Encode(JObject(members)) + rest) == Some((JObject(members), rest))
  {
    if members == [] {
      assert Encode(JObject(members)) == "{}";
      assert ("{}" + rest)[2..] == rest;
      ReadFromEmptyBraces("{}" + rest, rest);
    } else {
      var inside := EncodeMembers(members) + ("}" + rest);
      BracesText(members, rest);
      assert ("{" + inside)[1..] == inside;
      ReadFromBrace("{" + inside, members, rest);
    }
  }

  lemma EncodeStart(v: Json)
    ensures Encode(v)[0] != ']'
  {}

  lemma FirstOfItem(items: seq<Json>)
    requires items != []
    ensures EncodeItems(items) != [] && EncodeItems(items)[0] != ']'
  {
    EncodeStart(items[0]);
  }

  lemma {:induction false} ReadEncodedItems(items: seq<Json>, rest: string)
    requires items != []
    ensures ReadItems(EncodeItems(items) + ("]" + rest)) == Some((items, rest))
    decreases items, 0
  {
    hide Read, Encode;
    var s := EncodeItems(items) + ("]" + rest);
    if |items| == 1 {
      ReadEncoded(items[0], "]" + rest);
      assert ("]" + rest)[1..] == rest;
      assert items == [items[0]];
    } else {
      var tail := "," + (EncodeItems(items[1..]) + ("]" + rest));
      assert s == Encode(items[0]) + tail;
      ReadEncoded(items[0], tail);
      assert tail[1..] == EncodeItems(items[1..]) + ("]" + rest);
      ReadEncodedItems(items[1..], rest);
      assert items == [items[0]] + items[1..];
    }
  }

  /** What follows the first member. */
  function AfterMember(members: seq<Member>, rest: string): string
    requires members != []
  {
    if |members| == 1 then "}" + rest else "," + (EncodeMembers(members[1..]) + ("}" + rest))
  }

  lemma MemberText(members: seq<Member>, rest: string)
    requires members != []
    ensures var m := members[0];
      EncodeMembers(members) + ("}" + rest)
      == Quoted(m.name) + (":" + (Encode(m.value) + AfterMember(members, rest)))
  {
    hide Encode, Quoted;
    var m := members[0];
    var name, value := Quoted(m.name), Encode(m.value);
    if |members| == 1 {
      assert EncodeMembers(members) == name + ":" + value;
      Regroup(name, ":", value, "}" + rest);
    } else {
      var more := EncodeMembers(members[1..]);
      assert EncodeMembers(members) == (name + ":" + value) + "," + more;
      hide EncodeMembers;
      Regroup(name + ":" + value, ",", more, "}" + rest);
      Regroup(name, ":", value, "," + (more + ("}" + rest)));
    }
  }

  lemma Regroup(a: string, b: string, c: string, d: string)
    ensures (a + b + c) + d == a + (b + (c + d))
  {}

  lemma ReadFirstMember(s: string, name: string, colon: string, v: Json, tail: string)
    requires s != [] && s[0] == '"' && ReadBody(s[1..]) == Some((name, colon))
    requires colon != [] && colon[0] == ':' && Read(colon[1..]) == Some((v, tail)) && tail != []
    ensures tail[0] == '}' ==> ReadMembers(s) == Some(([Member(name, v)], tail[1..]))
    ensures tail[0] == ',' && ReadMembers(tail[1..]).Some? ==>
      var (more, after) := ReadMembers(tail[1..]).value;
      ReadMembers(s) == Some(([Member(name, v)] + more, after))
  {}

  lemma {:induction false} ReadEncodedMembers(members: seq<Member>, rest: string)
    requires members != []
    ensures ReadMembers(EncodeMembers(members) + ("}" + rest)) == Some((members, rest))
    decreases members, 0
  {
    hide Read, ReadMembers, ReadBody, EncodeMembers, Encode, Quoted;
    var s := EncodeMembers(members) + ("}" + rest);
    var m, tail := members[0], AfterMember(members, rest);
    var colon := ":" + (Encode(m.value) + tail);
    MemberText(members, rest);
    ReadQuoted(m.name, colon);
    assert colon[1..] == Encode(m.value) + tail;
    ReadEncoded(m.value, tail);
    if |members| == 1 {
      assert tail[1..] == rest;
      assert members == [m];
    } else {
      assert tail[1..] == EncodeMembers(members[1..]) + ("}" + rest);
      ReadEncodedMembers(members[1..], rest);
      assert members == [m] + members[1..];
    }
    ReadFirstMember(s, m.name, colon, m.value, tail);
  }

  /* ---- Consequences ---- */

  /** Different values have different texts. */
  lemma EncodeInjective(v: Json, w: Json)
    requires Encode(v) == Encode(w)
    ensures v == w
  {
    assert Encode(v) + "" == Encode(v) && Encode(w) + "" == Encode(w);
    ReadEncoded(v, "");
    ReadEncoded(w, "");
  }

  /** A text cut off inside an object is the text of no object at all. */
  lemma NoObjectIsAPrefix(v: Json, w: Json, cut: string)
    requires v.JObject? && w.JObject?
    requires Encode(v) + cut == Encode(w)
    ensures v == w && cut == []
  {
    ReadObject(v, cut);
    ReadObject(w, "");
    assert Encode(w) + "" == Encode(w);
  }

  lemma ReadObject(v: Json, rest: string)
    requires v.JObject?
    ensures Read(Encode(v) + rest) == Some((v, rest))
  {
    if v.members != [] {
      ReadEncodedMembers(v.members, rest);
    }
    ReadBraces(v.members, rest);
  }
}
