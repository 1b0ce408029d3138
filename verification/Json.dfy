/** JSON values and their canonical text: no white space, only the escapes that are needed.
    The grammar is that of sections 4 to 7 of RFC 8259, for values without fractions. */
module Json {
  import opened TextRules

  datatype Json =
    | JNull
    | JBool(flag: bool)
    | JInt(number: int)
    | JString(text: string)
    | JArray(items: seq<Json>)
    | JObject(members: seq<Member>)

  datatype Member = Member(name: string, value: Json)

  /* ---- The canonical encoding ---- */

  function HexDigit(n: nat): char
    requires n < 16
  {
    if n < 10 then ('0' as int + n) as char else ('a' as int + n - 10) as char
  }

  /** A character as it appears between quotes. */
  function Escaped(c: char): (r: string)
    ensures r != []
  {
    if c == '"' then ['\\', '"']
    else if c == '\\' then ['\\', '\\']
    else if c == '\n' then ['\\', 'n']
    else if c == '\r' then ['\\', 'r']
    else if c == '\t' then ['\\', 't']
    else if c == 8 as char then ['\\', 'b']
    else if c == 12 as char then ['\\', 'f']
    else if c < ' ' then ['\\', 'u', '0', '0', HexDigit(c as int / 16), HexDigit(c as int % 16)]
    else [c]
  }

  function {:induction false} EscapedAll(s: string): string {
    if s == [] then [] else Escaped(s[0]) + EscapedAll(s[1..])
  }

  function Quoted(s: string): string { ['"'] + EscapedAll(s) + ['"'] }

  function Numeral(n: int): string { if n < 0 then ['-'] + Decimal(-n) else Decimal(n) }

  function {:induction false} Encode(v: Json): (r: string)
    ensures r != []
    decreases v
  {
    match v
    case JNull => "null"
    case JBool(b) => if b then "true" else "false"
    case JInt(n) => Numeral(n)
    case JString(s) => Quoted(s)
    case JArray(items) => "[" + EncodeItems(items) + "]"
    case JObject(members) => "{" + EncodeMembers(members) + "}"
  }

  function {:induction false} EncodeItems(items: seq<Json>): string
    decreases items
  {
    if items == [] then ""
    else if |items| == 1 then Encode(items[0])
    else Encode(items[0]) + "," + EncodeItems(items[1..])
  }

  function EncodeMember(m: Member): string
    decreases m
  {
    Quoted(m.name) + ":" + Encode(m.value)
  }

  function {:induction false} EncodeMembers(members: seq<Member>): string
    decreases members
  {
    if members == [] then ""
    else if |members| == 1 then EncodeMember(members[0])
    else EncodeMember(members[0]) + "," + EncodeMembers(members[1..])
  }

  /* ---- The encoder's chunks ---- */

  function {:induction false} Concat(chunks: seq<string>): string {
    if chunks == [] then "" else chunks[0] + Concat(chunks[1..])
  }

  lemma {:induction false} ConcatAppend(a: seq<string>, b: seq<string>)
    ensures Concat(a + b) == Concat(a) + Concat(b)
  {
    if a == [] {
      assert a + b == b;
    } else {
      assert (a + b)[1..] == a[1..] + b;
      ConcatAppend(a[1..], b);
    }
  }

  lemma ConcatOne(s: string)
    ensures Concat([s]) == s
  {
    assert [s][1..] == [];
    assert Concat([s]) == s + Concat([]);
  }

  /** A value in the pieces in which the encoder hands it out. */
  function {:induction false} Chunks(v: Json): seq<string>
    decreases v
  {
    match v
    case JArray(items) => if items == [] then ["[]"] else ["["] + ItemChunks(items) + ["]"]
    case JObject(members) => if members == [] then ["{}"] else ["{"] + MemberChunks(members) + ["}"]
    case _ => [Encode(v)]
  }

  function {:induction false} ItemChunks(items: seq<Json>): seq<string>
    decreases items
  {
    if items == [] then []
    else if |items| == 1 then Chunks(items[0])
    else Chunks(items[0]) + [","] + ItemChunks(items[1..])
  }

  function {:induction false} MemberChunks(members: seq<Member>): seq<string>
    decreases members
  {
    if members == [] then []
    else
      var first := [Quoted(members[0].name), ":"] + Chunks(members[0].value);
      if |members| == 1 then first else first + [","] + MemberChunks(members[1..])
  }

  lemma {:induction false} ChunksEncode(v: Json)
    ensures Concat(Chunks(v)) == Encode(v)
    decreases v
  {
    match v
    case JArray(items) =>
      if items == [] {
        ConcatOne("[]");
      } else {
        ItemChunksEncode(items);
        ConcatOne("[");
        ConcatOne("]");
        ConcatAppend(["["] + ItemChunks(items), ["]"]);
        ConcatAppend(["["], ItemChunks(items));
      }
    case JObject(members) =>
      if members == [] {
        ConcatOne("{}");
      } else {
        MemberChunksEncode(members);
        ConcatOne("{");
        ConcatOne("}");
        ConcatAppend(["{"] + MemberChunks(members), ["}"]);
        ConcatAppend(["{"], MemberChunks(members));
      }
    case _ => ConcatOne(Encode(v));
  }

  lemma {:induction false} ItemChunksEncode(items: seq<Json>)
    ensures Concat(ItemChunks(items)) == EncodeItems(items)
    decreases items
  {
    if items != [] {
      ChunksEncode(items[0]);
      if |items| > 1 {
        ItemChunksEncode(items[1..]);
        ConcatOne(",");
        ConcatAppend(Chunks(items[0]) + [","], ItemChunks(items[1..]));
        ConcatAppend(Chunks(items[0]), [","]);
      }
    }
  }

  lemma {:induction false} MemberChunksEncode(members: seq<Member>)
    ensures Concat(MemberChunks(members)) == EncodeMembers(members)
    decreases members
  {
    if members != [] {
      var name, value := Quoted(members[0].name), members[0].value;
      var first := [name, ":"] + Chunks(value);
      ChunksEncode(value);
      ConcatOne(name);
      ConcatOne(":");
      assert [name, ":"] == [name] + [":"];
      ConcatAppend([name], [":"]);
      ConcatAppend([name, ":"], Chunks(value));
      if |members| > 1 {
        MemberChunksEncode(members[1..]);
        ConcatOne(",");
        ConcatAppend(first + [","], MemberChunks(members[1..]));
        ConcatAppend(first, [","]);
      }
    }
  }

  /* ---- Encoding lists that grow at the end, as a writer produces them ---- */

  lemma {:induction false} EncodeItemsSnoc(items: seq<Json>, last: Json)
    ensures EncodeItems(items + [last]) == EncodeItems(items) + (if items == [] then "" else ",") + Encode(last)
  {
    if items == [] {
      assert items + [last] == [last];
    } else {
      assert (items + [last])[1..] == items[1..] + [last];
      EncodeItemsSnoc(items[1..], last);
      if |items| == 1 {
        assert items[1..] == [];
      }
    }
  }

  lemma {:induction false} EncodeMembersSnoc(members: seq<Member>, last: Member)
    ensures EncodeMembers(members + [last])
            == EncodeMembers(members) + (if members == [] then "" else ",") + EncodeMember(last)
  {
    hide EncodeMember;
    if members == [] {
      assert members + [last] == [last];
    } else {
      assert (members + [last])[0] == members[0] && (members + [last])[1..] == members[1..] + [last];
      EncodeMembersSnoc(members[1..], last);
      if |members| == 1 {
        assert members[1..] == [];
      }
    }
  }
}
