/** The subject export written piece by piece, against the document it must add up to. */
module ExportStream {
  import opened Common
  import opened Json
  import opened JsonDecoding

  datatype Record = Record(providerKey: string, tableName: string, recordKind: string, payload: Json,
                           redactedFields: seq<string>)

  datatype ProviderFailure = ExportError(reason: string) | OtherException

  /** What a provider yields, and what it raises after that, if anything. */
  datatype Provider = Provider(key: string, records: seq<Record>, failure: Option<ProviderFailure>)

  datatype Context = Context(schemaVersion: string, generatedAt: string, requestId: string,
                             subjectUserId: Option<string>, requesterUserId: Option<string>,
                             requestType: string, requestStatus: string, artifactId: string)

  datatype Outcome = Finished | Raised(reason: string)

  function Strings(s: seq<string>): Json { JArray(seq(|s|, i requires 0 <= i < |s| => JString(s[i]))) }

  function Serialised(r: Record): Json {
    JObject([Member("record_kind", JString(r.recordKind)), Member("table_name", JString(r.tableName)),
             Member("payload", r.payload), Member("redacted_fields", Strings(r.redactedFields))])
  }

  function Notice(r: Record): Json {
    JObject([Member("provider_key", JString(r.providerKey)), Member("table_name", JString(r.tableName)),
             Member("redacted_fields", Strings(r.redactedFields)),
             Member("reason_code", JString("non_exportable_or_review_required"))])
  }

  /* ---- The document ---- */

  function Header(c: Context, subject: string): seq<Member> {
    [Member("schema_version", JString(c.schemaVersion)),
     Member("generated_at", JString(c.generatedAt)),
     Member("data_subject_request_id", JString(c.requestId)),
     Member("subject_user_id", JString(subject)),
     Member("requester_user_id", match c.requesterUserId case None => JNull case Some(id) => JString(id)),
     Member("request_type", JString(c.requestType)),
     Member("request_status", JString(c.requestStatus)),
     Member("artifact_id", JString(c.artifactId))]
  }

  function SerialisedAll(records: seq<Record>): seq<Json> {
    seq(|records|, i requires 0 <= i < |records| => Serialised(records[i]))
  }

  function Data(providers: seq<Provider>): seq<Member> {
    seq(|providers|, i requires 0 <= i < |providers| =>
      Member(providers[i].key, JArray(SerialisedAll(providers[i].records))))
  }

  function Keys(providers: seq<Provider>): seq<string> {
    seq(|providers|, i requires 0 <= i < |providers| => providers[i].key)
  }

  /** Every record of every provider, in order. */
  function {:induction false} AllRecords(providers: seq<Provider>): seq<Record> {
    if providers == [] then [] else AllRecords(providers[..|providers| - 1]) + providers[|providers| - 1].records
  }

  function {:induction false} Notices(records: seq<Record>): seq<Json> {
    if records == [] then []
    else
      var last := records[|records| - 1];
      Notices(records[..|records| - 1]) + if last.redactedFields != [] then [Notice(last)] else []
  }

  function Manifest(providerCount: nat, recordCount: nat, keys: seq<string>, notices: seq<Json>): Json {
    JObject([Member("format", JString("privacy_subject_export")),
             Member("provider_count", JInt(providerCount)), Member("record_count", JInt(recordCount)),
             Member("providers", Strings(keys)), Member("redaction_notices", JArray(notices))])
  }

  /** The whole export: its header, the records by provider, and a manifest that counts them. */
  function Document(c: Context, subject: string, providers: seq<Provider>): Json {
    JObject(Header(c, subject)
            + [Member("data", JObject(Data(providers))),
               Member("manifest", ManifestOf(providers))])
  }

  /** How a provider's exception surfaces. */
  function Surfaced(f: ProviderFailure): string {
    match f case ExportError(reason) => reason case OtherException => "export_provider_failed"
  }

  /* ---- The writer ---- */

  function JsonKey(name: string): string { Quoted(name) + ":" }

  /** The text up to and with the members of the object under `dataKey`, still open. */
  function DataText(header: seq<Member>, dataKey: string, data: seq<Member>): string {
    "{" + EncodeMembers(header) + "," + JsonKey(dataKey) + "{" + EncodeMembers(data)
  }

  function ClosingText(manifestKey: string, manifest: Json): string {
    "}" + ("," + (JsonKey(manifestKey) + (Encode(manifest) + "}")))
  }

  lemma Assoc(a: string, b: string, c: string)
    ensures a + (b + c) == (a + b) + c
  {}

  method Append(chunks: seq<string>, chunk: string) returns (more: seq<string>)
    ensures Concat(more) == Concat(chunks) + chunk
  {
    more := chunks + [chunk];
    ConcatAppend(chunks, [chunk]);
    ConcatOne(chunk);
  }

  method AppendValue(chunks: seq<string>, v: Json) returns (more: seq<string>)
    ensures Concat(more) == Concat(chunks) + Encode(v)
  {
    more := chunks + Chunks(v);
    ConcatAppend(chunks, Chunks(v));
    ChunksEncode(v);
  }

  function Separator(first: bool): string { if first then "" else "," }

  method WriteField(chunks: seq<string>, first: bool, m: Member) returns (more: seq<string>)
    ensures Concat(more) == Concat(chunks) + (Separator(first) + EncodeMember(m))
  {
    more := chunks;
    ghost var before := Concat(chunks);
    if !first {
      more := Append(more, ",");
    }
    assert Concat(more) == before + Separator(first);
    more := Append(more, JsonKey(m.name));
    more := AppendValue(more, m.value);
    Assoc(before + Separator(first), JsonKey(m.name), Encode(m.value));
    Assoc(before, Separator(first), EncodeMember(m));
  }

  /** The fields of the header, one after the other. */
  method WriteFields(chunks: seq<string>, fields: seq<Member>) returns (more: seq<string>)
    ensures Concat(more) == Concat(chunks) + EncodeMembers(fields)
  {
    more := chunks;
    for index := 0 to |fields|
      invariant Concat(more) == Concat(chunks) + EncodeMembers(fields[..index])
    {
      more := WriteField(more, index == 0, fields[index]);
      MembersGrow(fields, index);
      Assoc(Concat(chunks), EncodeMembers(fields[..index]), Separator(index == 0) + EncodeMember(fields[index]));
    }
    assert fields[..|fields|] == fields;
  }

  lemma MembersGrow(members: seq<Member>, i: nat)
    requires i < |members|
    ensures EncodeMembers(members[..i + 1])
            == EncodeMembers(members[..i]) + (Separator(i == 0) + EncodeMember(members[i]))
  {
    assert members[..i + 1] == members[..i] + [members[i]];
    EncodeMembersSnoc(members[..i], members[i]);
  }

  lemma ItemsGrow(records: seq<Record>, i: nat)
    requires i < |records|
    ensures EncodeItems(SerialisedAll(records[..i + 1]))
            == EncodeItems(SerialisedAll(records[..i])) + (Separator(i == 0) + Encode(Serialised(records[i])))
  {
    assert SerialisedAll(records[..i + 1]) == SerialisedAll(records[..i]) + [Serialised(records[i])];
    ItemsSnoc(SerialisedAll(records[..i]), Serialised(records[i]));
  }

  lemma ItemsSnoc(items: seq<Json>, v: Json)
    ensures EncodeItems(items + [v]) == EncodeItems(items) + (Separator(items == []) + Encode(v))
  {
    EncodeItemsSnoc(items, v);
  }

  method WriteItem(chunks: seq<string>, first: bool, v: Json) returns (more: seq<string>)
    ensures Concat(more) == Concat(chunks) + (Separator(first) + Encode(v))
  {
    more := chunks;
    if !first {
      more := Append(more, ",");
    }
    more := AppendValue(more, v);
    Assoc(Concat(chunks), Separator(first), Encode(v));
  }

  /** One provider's records as array items, with the notices they call for. */
  method WriteRecords(chunks: seq<string>, records: seq<Record>, count: nat, notices: seq<Json>)
    returns (more: seq<string>, recordCount: nat, allNotices: seq<Json>)
    ensures Concat(more) == Concat(chunks) + EncodeItems(SerialisedAll(records))
    ensures recordCount == count + |records| && allNotices == notices + Notices(records)
  {
    hide Serialised, Encode, Notice, EncodeItems;
    EmptyItems();
    assert records[..0] == [] && Concat(chunks) + "" == Concat(chunks);
    more, recordCount, allNotices := chunks, count, notices;
    var firstRecord := true;
    for i := 0 to |records|
      invariant firstRecord <==> i == 0
      invariant Concat(more) == Concat(chunks) + EncodeItems(SerialisedAll(records[..i]))
      invariant recordCount == count + i && allNotices == notices + Notices(records[..i])
    {
      var record := records[i];
      assert records[..i + 1][..i] == records[..i];
      ItemsGrow(records, i);
      recordCount := recordCount + 1;
      if record.redactedFields != [] {
        allNotices := allNotices + [Notice(record)];
      }
      more := WriteItem(more, firstRecord, Serialised(record));
      Assoc(Concat(chunks), EncodeItems(SerialisedAll(records[..i])), Separator(i == 0) + Encode(Serialised(record)));
      firstRecord := false;
    }
    assert records[..|records|] == records;
  }

  lemma EmptyItems()
    ensures EncodeItems(SerialisedAll([])) == ""
  {}

  /** One provider's member, its array still open. */
  method WriteProvider(chunks: seq<string>, first: bool, provider: Provider, count: nat, notices: seq<Json>)
    returns (more: seq<string>, recordCount: nat, allNotices: seq<Json>)
    ensures Concat(more) == Concat(chunks) + (Separator(first) + ProviderText(provider))
    ensures recordCount == count + |provider.records| && allNotices == notices + Notices(provider.records)
  {
    more := chunks;
    ghost var before := Concat(chunks);
    if !first {
      more := Append(more, ",");
    }
    assert Concat(more) == before + Separator(first);
    more := Append(more, JsonKey(provider.key));
    more := Append(more, "[");
    more, recordCount, allNotices := WriteRecords(more, provider.records, count, notices);
    Assoc4(before + Separator(first), JsonKey(provider.key), "[", EncodeItems(SerialisedAll(provider.records)));
    Assoc(before, Separator(first), ProviderText(provider));
  }

  lemma Assoc4(a: string, b: string, c: string, d: string)
    ensures a + (b + c + d) == ((a + b) + c) + d
  {
    Assoc(a, b + c, d);
    Assoc(a, b, c);
  }

  /** What the writer holds after it has written `providers` in full. */
  datatype Progress = Progress(chunks: seq<string>, providerKeys: seq<string>, recordCount: nat, notices: seq<Json>)

  ghost predicate Written(p: Progress, header: seq<Member>, dataKey: string, providers: seq<Provider>) {
    && Concat(p.chunks) == DataText(header, dataKey, Data(providers))
    && p.providerKeys == Keys(providers)
    && p.recordCount == |AllRecords(providers)| && p.notices == Notices(AllRecords(providers))
  }

  /** The text of a stream that ends inside the array of `providers[i]`. */
  ghost function TextCutAt(header: seq<Member>, dataKey: string, providers: seq<Provider>, i: nat): string
    requires i < |providers|
  {
    DataText(header, dataKey, Data(providers[..i])) + (Separator(i == 0) + ProviderText(providers[i]))
  }

  /** The next provider: written in full, or cut off where it fails. */
  method WriteNext(p: Progress, providers: seq<Provider>, i: nat, ghost header: seq<Member>, ghost dataKey: string)
    returns (q: Progress)
    requires i < |providers| && Written(p, header, dataKey, providers[..i])
    ensures providers[i].failure.None? ==> Written(q, header, dataKey, providers[..i + 1])
    ensures providers[i].failure.Some? ==> Concat(q.chunks) == TextCutAt(header, dataKey, providers, i)
  {
    ProvidersGrow(header, dataKey, providers, i);
    var chunks, count, notices := WriteProvider(p.chunks, i == 0, providers[i], p.recordCount, p.notices);
    if providers[i].failure.None? {
      chunks := Append(chunks, "]");
    }
    q := Progress(chunks, p.providerKeys + [providers[i].key], count, notices);
  }

  lemma NothingWritten(chunks: seq<string>, header: seq<Member>, dataKey: string)
    requires Concat(chunks) == DataText(header, dataKey, [])
    ensures Written(Progress(chunks, [], 0, []), header, dataKey, [])
  {
    assert Data([]) == [] && Keys([]) == [];
  }

  /** All providers in turn, up to the first that fails; `stopped` is its index. */
  method WriteProviders(chunks: seq<string>, providers: seq<Provider>, ghost header: seq<Member>, ghost dataKey: string)
    returns (p: Progress, stopped: nat)
    requires Concat(chunks) == DataText(header, dataKey, [])
    ensures stopped <= |providers| && forall j :: 0 <= j < stopped ==> providers[j].failure.None?
    ensures stopped == |providers| ==> Written(p, header, dataKey, providers)
    ensures stopped < |providers| ==>
      providers[stopped].failure.Some? && Concat(p.chunks) == TextCutAt(header, dataKey, providers, stopped)
  {
    p, stopped := Progress(chunks, [], 0, []), 0;
    NothingWritten(chunks, header, dataKey);
    assert providers[..0] == [];
    while stopped < |providers|
      invariant stopped <= |providers| && forall j :: 0 <= j < stopped ==> providers[j].failure.None?
      invariant Written(p, header, dataKey, providers[..stopped])
    {
      p := WriteNext(p, providers, stopped, header, dataKey);
      if providers[stopped].failure.Some? {
        return;
      }
      stopped := stopped + 1;
    }
    assert providers[..|providers|] == providers;
  }

  /** The generator. A subject is required; a provider that fails ends the stream there. */
  method IterSubjectExportChunks(c: Context, providers: seq<Provider>) returns (chunks: seq<string>, outcome: Outcome)
    ensures c.subjectUserId.None? ==> chunks == [] && outcome == Raised("subject_user_missing")
    ensures c.subjectUserId.Some? ==>
      (outcome.Finished? <==> forall i :: 0 <= i < |providers| ==> providers[i].failure.None?)
    ensures outcome.Finished? ==> Concat(chunks) == Encode(Document(c, c.subjectUserId.value, providers))
    ensures outcome.Finished? ==>
      exists v :: Read(Concat(chunks)) == Some((v, "")) && TellsExport(v, c, c.subjectUserId.value, providers)
    ensures c.subjectUserId.Some? && outcome.Raised? ==>
      exists i :: 0 <= i < |providers| && StopsAt(c, c.subjectUserId.value, providers, i, Concat(chunks), outcome.reason)
  {
    if c.subjectUserId.None? {
      return [], Raised("subject_user_missing");
    }
    var subject := c.subjectUserId.value;
    var header := Header(c, subject);
    chunks := OpenDocument(header, "data");
    var p, stopped := WriteProviders(chunks, providers, header, "data");
    chunks := p.chunks;
    if stopped < |providers| {
      outcome := Raised(Surfaced(providers[stopped].failure.value));
      assert StopsAt(c, subject, providers, stopped, Concat(chunks), outcome.reason);
      return;
    }
    chunks := CloseDocument(chunks, "manifest", Manifest(|p.providerKeys|, p.recordCount, p.providerKeys, p.notices));
    DocumentText(c, subject, providers);
    FinishedStreamTells(c, subject, providers);
    outcome := Finished;
  }

  method OpenDocument(header: seq<Member>, dataKey: string) returns (chunks: seq<string>)
    ensures Concat(chunks) == DataText(header, dataKey, [])
  {
    chunks := ["{"];
    ConcatOne("{");
    chunks := WriteFields(chunks, header);
    chunks := Append(chunks, ",");
    chunks := Append(chunks, JsonKey(dataKey));
    chunks := Append(chunks, "{");
    assert Concat(chunks) + "" == Concat(chunks);
  }

  method CloseDocument(chunks: seq<string>, manifestKey: string, manifest: Json) returns (more: seq<string>)
    ensures Concat(more) == Concat(chunks) + ClosingText(manifestKey, manifest)
  {
    ghost var t := Concat(chunks);
    more := Append(chunks, "}");
    more := Append(more, ",");
    more := Append(more, JsonKey(manifestKey));
    more := AppendValue(more, manifest);
    more := Append(more, "}");
    Assoc6(t, "}", ",", JsonKey(manifestKey), Encode(manifest), "}");
  }

  lemma Assoc6(a: string, b: string, c: string, d: string, e: string, f: string)
    ensures a + (b + (c + (d + (e + f)))) == ((((a + b) + c) + d) + e) + f
  {
    Assoc(a, b, c + (d + (e + f)));
    Assoc(a + b, c, d + (e + f));
    Assoc(a + b + c, d, e + f);
    Assoc(a + b + c + d, e, f);
  }

  /** What one more provider adds to the text, the keys, the records and the notices. */
  lemma ProvidersGrow(header: seq<Member>, dataKey: string, providers: seq<Provider>, i: nat)
    requires i < |providers|
    ensures DataText(header, dataKey, Data(providers[..i + 1]))
            == DataText(header, dataKey, Data(providers[..i])) + (Separator(i == 0) + ProviderText(providers[i])) + "]"
    ensures Keys(providers[..i + 1]) == Keys(providers[..i]) + [providers[i].key]
    ensures AllRecords(providers[..i + 1]) == AllRecords(providers[..i]) + providers[i].records
    ensures Notices(AllRecords(providers[..i + 1])) == Notices(AllRecords(providers[..i])) + Notices(providers[i].records)
  {
    RecordsGrow(providers, i);
    var all := Data(providers);
    assert Data(providers[..i + 1]) == all[..i + 1] && Data(providers[..i]) == all[..i];
    DataGrows(header, dataKey, all, i, providers[i]);
  }

  lemma RecordsGrow(providers: seq<Provider>, i: nat)
    requires i < |providers|
    ensures Keys(providers[..i + 1]) == Keys(providers[..i]) + [providers[i].key]
    ensures AllRecords(providers[..i + 1]) == AllRecords(providers[..i]) + providers[i].records
    ensures Notices(AllRecords(providers[..i + 1])) == Notices(AllRecords(providers[..i])) + Notices(providers[i].records)
  {
    assert providers[..i + 1][..i] == providers[..i];
    NoticesAppend(AllRecords(providers[..i]), providers[i].records);
  }

  lemma ProviderMember(p: Provider)
    ensures EncodeMember(Member(p.key, JArray(SerialisedAll(p.records)))) == ProviderText(p) + "]"
  {
    var items := EncodeItems(SerialisedAll(p.records));
    Assoc(JsonKey(p.key), "[", items);
    Assoc(JsonKey(p.key), "[" + items, "]");
  }

  lemma DataGrows(header: seq<Member>, dataKey: string, data: seq<Member>, i: nat, p: Provider)
    requires i < |data| && data[i] == Member(p.key, JArray(SerialisedAll(p.records)))
    ensures DataText(header, dataKey, data[..i + 1])
            == DataText(header, dataKey, data[..i]) + (Separator(i == 0) + ProviderText(p)) + "]"
  {
    var start := "{" + EncodeMembers(header) + "," + JsonKey(dataKey) + "{";
    MembersGrow(data, i);
    ProviderMember(p);
    TextGrows(start, EncodeMembers(data[..i]), Separator(i == 0), ProviderText(p));
  }

  lemma TextGrows(start: string, members: string, separator: string, text: string)
    ensures start + (members + (separator + (text + "]"))) == start + members + (separator + text) + "]"
  {
    Assoc(separator, text, "]");
    Assoc(members, separator + text, "]");
    Assoc(start, members + (separator + text), "]");
    Assoc(start, members, separator + text);
  }

  lemma {:induction false} NoticesAppend(a: seq<Record>, b: seq<Record>)
    ensures Notices(a + b) == Notices(a) + Notices(b)
  {
    if b == [] {
      assert a + b == a;
    } else {
      assert (a + b)[..|a + b| - 1] == a + b[..|b| - 1];
      NoticesAppend(a, b[..|b| - 1]);
    }
  }

  /** A provider's member as far as its last record. */
  function ProviderText(p: Provider): string { JsonKey(p.key) + "[" + EncodeItems(SerialisedAll(p.records)) }

  /** The stream was cut at provider `i`: all before it is complete, its own array is open. */
  ghost predicate StopsAt(c: Context, subject: string, providers: seq<Provider>, i: nat, text: string, reason: string)
    requires i < |providers|
  {
    && providers[i].failure.Some?
    && reason == (match providers[i].failure.value
                  case ExportError(given) => given
                  case OtherException => "export_provider_failed")
    && (forall j :: 0 <= j < i ==> providers[j].failure.None?)
    && text == TextCutAt(Header(c, subject), "data", providers, i)
  }

  function ManifestOf(providers: seq<Provider>): Json {
    var all := AllRecords(providers);
    Manifest(|providers|, |all|, Keys(providers), Notices(all))
  }

  /** The document's text in the order in which it is written. */
  lemma DocumentText(c: Context, subject: string, providers: seq<Provider>)
    ensures Encode(Document(c, subject, providers))
            == DataText(Header(c, subject), "data", Data(providers)) + ClosingText("manifest", ManifestOf(providers))
  {
    ObjectText(Header(c, subject), Member("data", JObject(Data(providers))), Data(providers),
               Member("manifest", ManifestOf(providers)));
  }

  lemma ObjectText(header: seq<Member>, d: Member, data: seq<Member>, m: Member)
    requires header != [] && d.value == JObject(data)
    ensures Encode(JObject(header + [d, m])) == DataText(header, d.name, data) + ClosingText(m.name, m.value)
  {
    assert header + [d, m] == (header + [d]) + [m];
    EncodeMembersSnoc(header + [d], m);
    EncodeMembersSnoc(header, d);
    ObjectPieces(EncodeMembers(header), JsonKey(d.name), EncodeMembers(data), JsonKey(m.name), Encode(m.value));
  }

  lemma ObjectPieces(header: string, dataKey: string, data: string, manifestKey: string, manifest: string)
    ensures "{" + (header + "," + (dataKey + ("{" + data + "}")) + "," + (manifestKey + manifest)) + "}"
            == "{" + header + "," + dataKey + "{" + data + ("}" + ("," + (manifestKey + (manifest + "}"))))
  {
    var inner := header + "," + (dataKey + ("{" + data + "}")) + "," + (manifestKey + manifest);
    assert inner == header + ("," + dataKey + "{" + data + "}" + "," + manifestKey + manifest);
    var flat := "{" + header + "," + dataKey + "{" + data;
    assert "{" + inner + "}" == flat + "}" + "," + manifestKey + manifest + "}";
    Assoc6(flat, "}", ",", manifestKey, manifest, "}");
  }

  /* ---- What the stream means to its reader ---- */

  /** Reading a finished stream gives the document back, and nothing is left over. */
  lemma FinishedStreamReadsBack(c: Context, subject: string, providers: seq<Provider>)
    ensures Read(Encode(Document(c, subject, providers))) == Some((Document(c, subject, providers), ""))
  {
    ReadObject(Document(c, subject, providers), "");
    assert Encode(Document(c, subject, providers)) + "" == Encode(Document(c, subject, providers));
  }

  /** A stream cut short by a provider is the text of no object: a truncated export cannot pass
      for a complete one. */
  lemma CutStreamIsNoObject(c: Context, subject: string, providers: seq<Provider>, i: nat, text: string, reason: string, v: Json)
    requires i < |providers| && StopsAt(c, subject, providers, i, text, reason) && v.JObject?
    ensures text != Encode(v)
  {
    var upTo := providers[..i + 1];
    var closing := ClosingText("manifest", ManifestOf(upTo));
    ProvidersGrow(Header(c, subject), "data", providers, i);
    DocumentText(c, subject, upTo);
    Assoc(text, "]", closing);
    if text == Encode(v) {
      NoObjectIsAPrefix(v, Document(c, subject, upTo), "]" + closing);
    }
  }

  /* ---- The manifest tells the truth ---- */

  ghost function {:induction false} Total(providers: seq<Provider>): nat {
    if providers == [] then 0 else |providers[0].records| + Total(providers[1..])
  }

  ghost function Redacted(records: seq<Record>): set<nat> {
    set i: nat | i < |records| && records[i].redactedFields != []
  }

  lemma {:induction false} AllRecordsFront(p: Provider, rest: seq<Provider>)
    ensures AllRecords([p] + rest) == p.records + AllRecords(rest)
  {
    if rest == [] {
      assert [p] + rest == [p] && [p][..0] == [];
      assert AllRecords([p]) == AllRecords([]) + p.records;
    } else {
      assert ([p] + rest)[..|rest|] == [p] + rest[..|rest| - 1];
      AllRecordsFront(p, rest[..|rest| - 1]);
    }
  }

  /** The manifest's counts are the sizes of what was written: the records of all providers,
      and one notice for each record with redacted fields. */
  lemma {:induction false} RecordCountIsTotal(providers: seq<Provider>)
    ensures |AllRecords(providers)| == Total(providers)
  {
    if providers != [] {
      RecordCountIsTotal(providers[1..]);
      AllRecordsFront(providers[0], providers[1..]);
      assert [providers[0]] + providers[1..] == providers;
    }
  }

  lemma RedactedGrows(records: seq<Record>)
    requires records != []
    ensures |Redacted(records)|
            == |Redacted(records[..|records| - 1])| + (if records[|records| - 1].redactedFields != [] then 1 else 0)
  {
    var last := |records| - 1;
    var front := records[..last];
    if records[last].redactedFields != [] {
      assert Redacted(records) == Redacted(front) + {last};
    } else {
      assert Redacted(records) == Redacted(front);
    }
  }

  lemma {:induction false} OneNoticePerRedactedRecord(records: seq<Record>)
    ensures |Notices(records)| == |Redacted(records)|
  {
    if records != [] {
      RedactedGrows(records);
      OneNoticePerRedactedRecord(records[..|records| - 1]);
    }
  }

  lemma {:induction false} EveryRedactedRecordIsNoticed(records: seq<Record>, i: nat)
    requires i in Redacted(records)
    ensures Notice(records[i]) in Notices(records)
  {
    if i < |records| - 1 {
      EveryRedactedRecordIsNoticed(records[..|records| - 1], i);
    }
  }

  /* ---- What the finished stream tells ---- */

  ghost predicate TellsStrings(v: Json, texts: seq<string>) {
    v.JArray? && |v.items| == |texts| && forall i :: 0 <= i < |texts| ==> v.items[i] == JString(texts[i])
  }

  ghost predicate TellsRecord(v: Json, r: Record) {
    && v.JObject? && |v.members| == 4
    && v.members[0] == Member("record_kind", JString(r.recordKind))
    && v.members[1] == Member("table_name", JString(r.tableName))
    && v.members[2] == Member("payload", r.payload)
    && v.members[3].name == "redacted_fields" && TellsStrings(v.members[3].value, r.redactedFields)
  }

  ghost predicate TellsNotice(v: Json, r: Record) {
    && v.JObject? && |v.members| == 4
    && v.members[0] == Member("provider_key", JString(r.providerKey))
    && v.members[1] == Member("table_name", JString(r.tableName))
    && v.members[2].name == "redacted_fields" && TellsStrings(v.members[2].value, r.redactedFields)
    && v.members[3] == Member("reason_code", JString("non_exportable_or_review_required"))
  }

  /** The records with redacted fields, in order. */
  ghost function {:induction false} RedactedIn(records: seq<Record>): seq<Record> {
    if records == [] then []
    else RedactedIn(records[..|records| - 1])
         + if records[|records| - 1].redactedFields != [] then [records[|records| - 1]] else []
  }

  ghost function {:induction false} RedactedOf(providers: seq<Provider>): seq<Record> {
    if providers == [] then [] else RedactedOf(providers[..|providers| - 1]) + RedactedIn(providers[|providers| - 1].records)
  }

  ghost predicate TellsHeader(h: seq<Member>, c: Context, subject: string)
    requires |h| >= 8
  {
    && h[0] == Member("schema_version", JString(c.schemaVersion))
    && h[1] == Member("generated_at", JString(c.generatedAt))
    && h[2] == Member("data_subject_request_id", JString(c.requestId))
    && h[3] == Member("subject_user_id", JString(subject))
    && h[4] == Member("requester_user_id", if c.requesterUserId.Some? then JString(c.requesterUserId.value) else JNull)
    && h[5] == Member("request_type", JString(c.requestType))
    && h[6] == Member("request_status", JString(c.requestStatus))
    && h[7] == Member("artifact_id", JString(c.artifactId))
  }

  ghost predicate TellsData(v: Json, providers: seq<Provider>) {
    && v.JObject? && |v.members| == |providers|
    && forall i :: 0 <= i < |providers| ==>
         && v.members[i].name == providers[i].key && v.members[i].value.JArray?
         && |v.members[i].value.items| == |providers[i].records|
         && forall j :: 0 <= j < |providers[i].records| ==> TellsRecord(v.members[i].value.items[j], providers[i].records[j])
  }

  ghost predicate TellsManifest(v: Json, providers: seq<Provider>) {
    && v.JObject? && |v.members| == 5
    && v.members[0] == Member("format", JString("privacy_subject_export"))
    && v.members[1] == Member("provider_count", JInt(|providers|))
    && v.members[2] == Member("record_count", JInt(Total(providers)))
    && v.members[3].name == "providers" && v.members[3].value.JArray?
    && |v.members[3].value.items| == |providers|
    && (forall i :: 0 <= i < |providers| ==> v.members[3].value.items[i] == JString(providers[i].key))
    && v.members[4].name == "redaction_notices" && v.members[4].value.JArray?
    && |v.members[4].value.items| == |RedactedOf(providers)|
    && (forall k :: 0 <= k < |RedactedOf(providers)| ==>
          TellsNotice(v.members[4].value.items[k], RedactedOf(providers)[k]))
  }

  /** Member by member, what a reader finds in a finished export. */
  ghost predicate TellsExport(v: Json, c: Context, subject: string, providers: seq<Provider>) {
    && v.JObject? && |v.members| == 10
    && TellsHeader(v.members, c, subject)
    && v.members[8].name == "data" && TellsData(v.members[8].value, providers)
    && v.members[9].name == "manifest" && TellsManifest(v.members[9].value, providers)
  }

  lemma {:induction false} RedactedAppend(a: seq<Record>, b: seq<Record>)
    ensures RedactedIn(a + b) == RedactedIn(a) + RedactedIn(b)
  {
    if b == [] {
      assert a + b == a;
    } else {
      assert (a + b)[..|a + b| - 1] == a + b[..|b| - 1];
      RedactedAppend(a, b[..|b| - 1]);
    }
  }

  lemma {:induction false} RedactedOfAll(providers: seq<Provider>)
    ensures RedactedIn(AllRecords(providers)) == RedactedOf(providers)
  {
    if providers != [] {
      var front := providers[..|providers| - 1];
      RedactedOfAll(front);
      RedactedAppend(AllRecords(front), providers[|providers| - 1].records);
    }
  }

  lemma {:induction false} NoticesTell(records: seq<Record>)
    ensures |Notices(records)| == |RedactedIn(records)|
    ensures forall k :: 0 <= k < |RedactedIn(records)| ==> TellsNotice(Notices(records)[k], RedactedIn(records)[k])
  {
    if records != [] {
      NoticesTell(records[..|records| - 1]);
      NoticeTells(records[|records| - 1]);
      hide Notice, TellsNotice;
    }
  }

  lemma NoticeTells(r: Record)
    ensures TellsNotice(Notice(r), r)
  {}

  lemma RecordTells(r: Record)
    ensures TellsRecord(Serialised(r), r)
  {}

  lemma DataTells(providers: seq<Provider>)
    ensures TellsData(JObject(Data(providers)), providers)
  {
    hide Serialised, TellsRecord;
    forall i, j | 0 <= i < |providers| && 0 <= j < |providers[i].records|
      ensures TellsRecord(Serialised(providers[i].records[j]), providers[i].records[j])
    {
      RecordTells(providers[i].records[j]);
    }
  }

  lemma ManifestTells(providers: seq<Provider>)
    ensures TellsManifest(ManifestOf(providers), providers)
  {
    hide TellsNotice, Notice, Notices, RedactedIn, RedactedOf, AllRecords;
    RecordCountIsTotal(providers);
    RedactedOfAll(providers);
    NoticesTell(AllRecords(providers));
  }

  lemma DocumentTells(c: Context, subject: string, providers: seq<Provider>)
    ensures TellsExport(Document(c, subject, providers), c, subject, providers)
  {
    hide TellsData, TellsManifest, ManifestOf, Data;
    DataTells(providers);
    ManifestTells(providers);
  }

  /** Reading the chunks of a finished stream gives an object that tells, under each name, what the
      providers delivered and how much of it. */
  lemma FinishedStreamTells(c: Context, subject: string, providers: seq<Provider>)
    ensures exists v :: Read(Encode(Document(c, subject, providers))) == Some((v, "")) && TellsExport(v, c, subject, providers)
  {
    hide Read, Encode, Document, TellsExport;
    FinishedStreamReadsBack(c, subject, providers);
    DocumentTells(c, subject, providers);
  }
}
