/** The parser accepts exactly three shapes of request, and the host's encoders produce only
    those. */
module RequestShapes {
  import opened Options
  import opened Decimal
  import opened RequestDocuments

  function Field(key: string, value: Value): Member {
    Member(Text(key), value)
  }

  function HeaderMembers(version: string, id: string, name: string): seq<Member> {
    [Field("protocol_version", Number(version)), Field("type", Text(name)), Field("command_id", Number(id))]
  }

  function StartMembers(version: string, id: string, uuid: string): seq<Member> {
    HeaderMembers(version, id, "START_TEST") + [Field("test_uuid", Text(uuid))]
  }

  function RunMembers(version: string, id: string, testType: string): seq<Member> {
    HeaderMembers(version, id, "RUN_COMPONENT_TEST") + [Field("test_type", Text(testType))]
  }

  function RunRgbMembers(version: string, id: string, entries: seq<Member>): seq<Member> {
    HeaderMembers(version, id, "RUN_COMPONENT_TEST") + [Field("test_type", Text("rgb_led")), Parameters(entries)]
  }

  function StopMembers(version: string, id: string): seq<Member> {
    HeaderMembers(version, id, "STOP_COMPONENT_TEST") + []
  }

  function RgbMembers(red: string, green: string, blue: string): seq<Member> {
    [Field("red", Number(red)), Field("green", Number(green)), Field("blue", Number(blue))]
  }

  /** `text` is a decimal for `n`, leading zeros allowed, within `limit`. */
  predicate Denotes(text: string, n: nat, limit: nat) {
    IsNumber(text, limit) && DecimalValue(text) == n
  }

  predicate Header(version: string, id: string, commandId: nat) {
    Denotes(version, PROTOCOL_VERSION, UINT32_MAX) && Denotes(id, commandId, UINT32_MAX) && commandId > 0
  }

  ghost predicate IsColour(entries: seq<Member>, c: Colour) {
    exists red, green, blue :: Consists(entries, RgbMembers(red, green, blue)) &&
      Denotes(red, c.red, UINT8_MAX) && Denotes(green, c.green, UINT8_MAX) && Denotes(blue, c.blue, UINT8_MAX)
  }

  /** The contract of the protocol: which documents say which request. */
  ghost predicate Says(doc: seq<Member>, r: Request) {
    match r.kind
    case StartTest =>
      && r.testType == "" && r.colour == None && IsUuid4(r.testUuid)
      && exists version, id :: Consists(doc, StartMembers(version, id, r.testUuid)) && Header(version, id, r.commandId)
    case RunComponentTest =>
      && r.testUuid == "" && IsTestType(r.testType) && (r.colour.Some? <==> r.testType == "rgb_led")
      && (if r.colour.None? then
            exists version, id :: Consists(doc, RunMembers(version, id, r.testType)) && Header(version, id, r.commandId)
          else
            exists version, id, entries :: Consists(doc, RunRgbMembers(version, id, entries)) &&
              Header(version, id, r.commandId) && IsColour(entries, r.colour.value))
    case StopComponentTest =>
      && r.testUuid == "" && r.testType == "" && r.colour == None
      && exists version, id :: Consists(doc, StopMembers(version, id)) && Header(version, id, r.commandId)
    case _ => false
  }

  // ---------------------------------------------------------------- counting

  function One(present: bool): nat {
    if present then 1 else 0
  }

  lemma {:induction false} FieldCount(doc: seq<Member>)
    requires Accepted(doc, IsField)
    ensures |doc| == One(Has(doc, "protocol_version")) + One(Has(doc, "type")) + One(Has(doc, "command_id"))
                     + One(Has(doc, "test_uuid")) + One(Has(doc, "test_type")) + One(Has(doc, "parameters"))
  {
    if doc != [] {
      FieldCount(doc[..|doc| - 1]);
    }
  }

  lemma {:induction false} ChannelCount(entries: seq<Member>)
    requires Accepted(entries, IsChannel)
    ensures |entries| == One(Has(entries, "red")) + One(Has(entries, "green")) + One(Has(entries, "blue"))
  {
    if entries != [] {
      ChannelCount(entries[..|entries| - 1]);
    }
  }

  lemma {:induction false} TokenCountAccepted(doc: seq<Member>)
    requires Accepted(doc, IsField)
    ensures TokenCount(doc) == 1 + 2 * |doc| + 6 * One(Has(doc, "parameters"))
  {
    if doc != [] {
      TokenCountAccepted(doc[..|doc| - 1]);
      if doc[|doc| - 1].value.Members? {
        ChannelCount(doc[|doc| - 1].value.entries);
      }
    }
  }

  // ---------------------------------------------------------------- only these shapes

  /** What an accepted document's member must look like. */
  lemma Found(doc: seq<Member>, good: Member -> bool, key: string)
    requires Accepted(doc, good) && Has(doc, key)
    ensures Field(key, Find(doc, key).value) in doc && good(Field(key, Find(doc, key).value))
  {
  }

  lemma ColourSaid(entries: seq<Member>)
    requires IsRgb(entries)
    ensures IsColour(entries, ColourOf(entries))
  {
    Found(entries, IsChannel, "red");
    Found(entries, IsChannel, "green");
    Found(entries, IsChannel, "blue");
    ChannelCount(entries);
    var red, green, blue := Find(entries, "red").value, Find(entries, "green").value, Find(entries, "blue").value;
    assert Consists(entries, RgbMembers(red.text, green.text, blue.text));
  }

  predicate WellFormed(doc: seq<Member>) {
    Accepted(doc, IsField) && Complete(FieldsOf(doc), TokenCount(doc))
  }

  lemma HeaderSaid(doc: seq<Member>) returns (version: string, id: string)
    requires WellFormed(doc)
    ensures Header(version, id, RequestOf(FieldsOf(doc)).commandId)
    ensures Field("protocol_version", Number(version)) in doc && Field("command_id", Number(id)) in doc
    ensures Field("type", Text(Find(doc, "type").value.text)) in doc
  {
    Found(doc, IsField, "protocol_version");
    Found(doc, IsField, "command_id");
    Found(doc, IsField, "type");
    version, id := Find(doc, "protocol_version").value.text, Find(doc, "command_id").value.text;
  }

  lemma StartSaid(doc: seq<Member>)
    requires WellFormed(doc) && RequestOf(FieldsOf(doc)).kind == StartTest
    ensures Says(doc, RequestOf(FieldsOf(doc)))
  {
    var version, id := HeaderSaid(doc);
    FieldCount(doc);
    Found(doc, IsField, "test_uuid");
    var r := RequestOf(FieldsOf(doc));
    assert Consists(doc, StartMembers(version, id, r.testUuid));
  }

  lemma RunSaid(doc: seq<Member>)
    requires WellFormed(doc) && RequestOf(FieldsOf(doc)).kind == RunComponentTest
    ensures Says(doc, RequestOf(FieldsOf(doc)))
  {
    var version, id := HeaderSaid(doc);
    FieldCount(doc);
    Found(doc, IsField, "test_type");
    var r := RequestOf(FieldsOf(doc));
    if r.colour.None? {
      assert Consists(doc, RunMembers(version, id, r.testType));
    } else {
      Found(doc, IsField, "parameters");
      var entries := Find(doc, "parameters").value.entries;
      ColourSaid(entries);
      assert Consists(doc, RunRgbMembers(version, id, entries));
    }
  }

  lemma StopSaid(doc: seq<Member>)
    requires WellFormed(doc) && RequestOf(FieldsOf(doc)).kind == StopComponentTest
    ensures Says(doc, RequestOf(FieldsOf(doc)))
  {
    var version, id := HeaderSaid(doc);
    FieldCount(doc);
    assert Consists(doc, StopMembers(version, id));
  }

  // ---------------------------------------------------------------- all of these shapes

  lemma ColourAccepted(entries: seq<Member>, c: Colour)
    requires IsColour(entries, c)
    ensures IsRgb(entries) && ColourOf(entries) == c && |entries| == 3
  {
    var red, green, blue :| Consists(entries, RgbMembers(red, green, blue)) &&
      Denotes(red, c.red, UINT8_MAX) && Denotes(green, c.green, UINT8_MAX) && Denotes(blue, c.blue, UINT8_MAX);
    var members := RgbMembers(red, green, blue);
    ConsistsAccepted(entries, members, IsChannel);
    FindUnique(members, "red", 0);
    FindUnique(members, "green", 1);
    FindUnique(members, "blue", 2);
  }

  lemma HeaderFinds(version: string, id: string, name: string, rest: seq<Member>, members: seq<Member>)
    requires members == HeaderMembers(version, id, name) + rest && DistinctKeys(members)
    ensures Find(members, "protocol_version") == Some(Number(version)) &&
            Find(members, "command_id") == Some(Number(id))
    ensures Find(members, "type") == Some(Text(name))
  {
    FindUnique(members, "protocol_version", 0);
    FindUnique(members, "type", 1);
    FindUnique(members, "command_id", 2);
  }

  lemma HeaderIsField(version: string, id: string, name: string, commandId: nat, m: Member)
    requires Header(version, id, commandId) && m in HeaderMembers(version, id, name)
    ensures IsField(m)
  {
  }

  /** The fields of a document that consists of the common header and `rest` are the header's
      and those found among all its members. */
  lemma HeaderFields(doc: seq<Member>, version: string, id: string, commandId: nat, name: string, rest: seq<Member>,
                     members: seq<Member>)
    requires Header(version, id, commandId) && members == HeaderMembers(version, id, name) + rest
    requires Consists(doc, members) && DistinctKeys(members) && forall m :: m in rest ==> IsField(m)
    ensures Accepted(doc, IsField)
    ensures TokenCount(doc) == 7 + 2 * |rest| + 6 * One(Has(members, "parameters"))
    ensures FieldsOf(doc) ==
            Fields(Some(Number(version)), Some(Text(name)), Some(Number(id)), Find(members, "test_uuid"),
                                    Find(members, "test_type"), ParametersOf(Find(members, "parameters")))
  {
    forall m | m in members ensures IsField(m) {
      if m !in rest {
        HeaderIsField(version, id, name, commandId, m);
      }
    }
    ConsistsAccepted(doc, members, IsField);
    HeaderFinds(version, id, name, rest, members);
    TokenCountAccepted(doc);
  }

  lemma HeaderHasNoMore(version: string, id: string, name: string)
    ensures var header := HeaderMembers(version, id, name);
            && DistinctKeys(header) && Find(header, "test_uuid") == None
            && Find(header, "test_type") == None && Find(header, "parameters") == None
  {
    var header := HeaderMembers(version, id, name);
    FindSound(header, "test_uuid");
    FindSound(header, "test_type");
    FindSound(header, "parameters");
  }

  /** A new key keeps the keys distinct. */
  lemma DistinctSnoc(members: seq<Member>, key: string, value: Value)
    requires DistinctKeys(members) && Find(members, key) == None
    ensures DistinctKeys(members + [Field(key, value)])
  {
    forall i | 0 <= i < |members| ensures members[i].key != Text(key) {
      if members[i].key == Text(key) {
        FindUnique(members, key, i);
      }
    }
  }

  lemma StartFields(doc: seq<Member>, version: string, id: string, commandId: nat, uuid: string)
    requires Header(version, id, commandId) && IsUuid4(uuid) && Consists(doc, StartMembers(version, id, uuid))
    ensures Accepted(doc, IsField) && TokenCount(doc) == 9
    ensures FieldsOf(doc) ==
            Fields(Some(Number(version)), Some(Text("START_TEST")), Some(Number(id)), Some(Text(uuid)), None, None)
  {
    var header, m := HeaderMembers(version, id, "START_TEST"), Field("test_uuid", Text(uuid));
    HeaderHasNoMore(version, id, "START_TEST");
    DistinctSnoc(header, "test_uuid", Text(uuid));
    FindSnoc(header, m, "test_uuid");
    FindSnoc(header, m, "test_type");
    FindSnoc(header, m, "parameters");
    HeaderFields(doc, version, id, commandId, "START_TEST", [m], header + [m]);
  }

  lemma RunFields(doc: seq<Member>, version: string, id: string, commandId: nat, testType: string)
    requires Header(version, id, commandId) && IsTestType(testType) && Consists(doc, RunMembers(version, id, testType))
    ensures Accepted(doc, IsField) && TokenCount(doc) == 9
    ensures FieldsOf(doc) ==
            Fields(Some(Number(version)), Some(Text("RUN_COMPONENT_TEST")), Some(Number(id)), None,
                   Some(Text(testType)), None)
  {
    var header, m := HeaderMembers(version, id, "RUN_COMPONENT_TEST"), Field("test_type", Text(testType));
    HeaderHasNoMore(version, id, "RUN_COMPONENT_TEST");
    DistinctSnoc(header, "test_type", Text(testType));
    FindSnoc(header, m, "test_uuid");
    FindSnoc(header, m, "test_type");
    FindSnoc(header, m, "parameters");
    HeaderFields(doc, version, id, commandId, "RUN_COMPONENT_TEST", [m], header + [m]);
  }

  /** The keys and finds of a RUN for the RGB LED. */
  lemma RunRgbFinds(version: string, id: string, entries: seq<Member>)
    ensures var members := RunRgbMembers(version, id, entries);
            && DistinctKeys(members) && Find(members, "test_uuid") == None
            && Find(members, "test_type") == Some(Text("rgb_led"))
            && Find(members, "parameters") == Some(Members(entries))
  {
    var header, m := HeaderMembers(version, id, "RUN_COMPONENT_TEST"), Field("test_type", Text("rgb_led"));
    HeaderHasNoMore(version, id, "RUN_COMPONENT_TEST");
    DistinctSnoc(header, "test_type", Text("rgb_led"));
    FindSnoc(header, m, "test_uuid");
    FindSnoc(header, m, "test_type");
    FindSnoc(header, m, "parameters");
    DistinctSnoc(header + [m], "parameters", Members(entries));
    FindSnoc(header + [m], Parameters(entries), "test_uuid");
    FindSnoc(header + [m], Parameters(entries), "test_type");
    FindSnoc(header + [m], Parameters(entries), "parameters");
    assert RunRgbMembers(version, id, entries) == (header + [m]) + [Parameters(entries)];
  }

  lemma RunRgbFields(doc: seq<Member>, version: string, id: string, commandId: nat, entries: seq<Member>, c: Colour)
    requires Header(version, id, commandId) && IsColour(entries, c) &&
             Consists(doc, RunRgbMembers(version, id, entries))
    ensures Accepted(doc, IsField) && TokenCount(doc) == 17
    ensures FieldsOf(doc) ==
            Fields(Some(Number(version)), Some(Text("RUN_COMPONENT_TEST")), Some(Number(id)), None,
                   Some(Text("rgb_led")), Some(c))
  {
    ColourAccepted(entries, c);
    RunRgbFinds(version, id, entries);
    var rest := [Field("test_type", Text("rgb_led")), Parameters(entries)];
    RgbRestIsField(entries);
    HeaderFields(doc, version, id, commandId, "RUN_COMPONENT_TEST", rest, RunRgbMembers(version, id, entries));
  }

  lemma RgbRestIsField(entries: seq<Member>)
    requires IsRgb(entries)
    ensures IsField(Field("test_type", Text("rgb_led"))) && IsField(Parameters(entries))
  {
  }

  lemma StopFields(doc: seq<Member>, version: string, id: string, commandId: nat)
    requires Header(version, id, commandId) && Consists(doc, StopMembers(version, id))
    ensures Accepted(doc, IsField) && TokenCount(doc) == 7
    ensures FieldsOf(doc) ==
            Fields(Some(Number(version)), Some(Text("STOP_COMPONENT_TEST")), Some(Number(id)), None, None, None)
  {
    var header := HeaderMembers(version, id, "STOP_COMPONENT_TEST");
    HeaderHasNoMore(version, id, "STOP_COMPONENT_TEST");
    assert header + [] == header;
    HeaderFields(doc, version, id, commandId, "STOP_COMPONENT_TEST", [], header);
  }

  lemma StartAccepted(doc: seq<Member>, r: Request)
    requires Says(doc, r) && r.kind == StartTest
    ensures Parsed(doc) == Some(r)
  {
    var version, id :| Consists(doc, StartMembers(version, id, r.testUuid)) && Header(version, id, r.commandId);
    StartFields(doc, version, id, r.commandId, r.testUuid);
  }

  lemma RunAccepted(doc: seq<Member>, r: Request)
    requires Says(doc, r) && r.kind == RunComponentTest && r.colour.None?
    ensures Parsed(doc) == Some(r)
  {
    var version, id :| Consists(doc, RunMembers(version, id, r.testType)) && Header(version, id, r.commandId);
    RunFields(doc, version, id, r.commandId, r.testType);
  }

  lemma RunRgbAccepted(doc: seq<Member>, r: Request)
    requires Says(doc, r) && r.kind == RunComponentTest && r.colour.Some?
    ensures Parsed(doc) == Some(r)
  {
    var version, id, entries :| Consists(doc, RunRgbMembers(version, id, entries)) &&
      Header(version, id, r.commandId) && IsColour(entries, r.colour.value);
    RunRgbFields(doc, version, id, r.commandId, entries, r.colour.value);
  }

  lemma StopAccepted(doc: seq<Member>, r: Request)
    requires Says(doc, r) && r.kind == StopComponentTest
    ensures Parsed(doc) == Some(r)
  {
    var version, id :| Consists(doc, StopMembers(version, id)) && Header(version, id, r.commandId);
    StopFields(doc, version, id, r.commandId);
  }

  /** A document parses to a request exactly when it says that request: one of the three
      shapes, every key once, nothing else, in any order.  In particular the parser never
      returns an unsupported type. */
  lemma ParsedIffSays(doc: seq<Member>, r: Request)
    ensures Parsed(doc) == Some(r) <==> Says(doc, r)
  {
    if Parsed(doc) == Some(r) {
      match r.kind
      case StartTest => StartSaid(doc);
      case RunComponentTest => RunSaid(doc);
      case StopComponentTest => StopSaid(doc);
    } else if Says(doc, r) {
      match r.kind
      case StartTest => StartAccepted(doc, r);
      case RunComponentTest => if r.colour.None? { RunAccepted(doc, r); } else { RunRgbAccepted(doc, r); }
      case StopComponentTest => StopAccepted(doc, r);
    }
  }
}

/** The host's request encoders against the firmware's parser. */
module RequestEncoding {
  import opened Options
  import opened Decimal
  import opened RequestDocuments
  import opened RequestShapes

  /** A Python dictionary from names to integers: no name twice, in insertion order. */
  type Dictionary = d: seq<(string, int)> | forall i, j :: 0 <= i < j < |d| ==> d[i].0 != d[j].0

  /** `str()` of a UUID of any version. */
  predicate IsUuid(text: string) {
    |text| == UUID_LENGTH && forall i :: 0 <= i < UUID_LENGTH ==> UuidCharacter(i, text[i])
  }

  /** `validate_test_type`: `[a-z0-9_]+`, of any length. */
  predicate IsHostTestType(text: string) {
    text != [] && forall i :: 0 <= i < |text| ==> TestTypeCharacter(text[i])
  }

  predicate IsRgbDictionary(parameters: Dictionary) {
    && |parameters| == 3
    && (exists i :: 0 <= i < 3 && parameters[i].0 == "red")
    && (exists i :: 0 <= i < 3 && parameters[i].0 == "green")
    && (exists i :: 0 <= i < 3 && parameters[i].0 == "blue")
    && forall i :: 0 <= i < 3 ==> 0 <= parameters[i].1 <= 255
  }

  function Entries(parameters: Dictionary): (entries: seq<Member>)
    requires IsRgbDictionary(parameters)
    ensures |entries| == 3
  {
    seq(3, i requires 0 <= i < 3 => Field(parameters[i].0, Number(Digits(parameters[i].1))))
  }

  function Value(parameters: Dictionary, name: string): int {
    if parameters == [] then 0
    else if parameters[|parameters| - 1].0 == name then parameters[|parameters| - 1].1
    else Value(parameters[..|parameters| - 1], name)
  }

  /** encode_start_test; None is its ValueError. */
  function EncodeStart(commandId: int, uuid: string): Option<seq<Member>> {
    if commandId <= 0 then None else Some(StartMembers("1", Digits(commandId), uuid))
  }

  /** encode_run_component_test. */
  function EncodeRun(commandId: int, testType: string, parameters: Option<Dictionary>): Option<seq<Member>> {
    if commandId <= 0 || !IsHostTestType(testType) then None
    else match parameters
      case None => Some(RunMembers("1", Digits(commandId), testType))
      case Some(p) =>
        if IsRgbDictionary(p) then Some(RunMembers("1", Digits(commandId), testType) + [Parameters(Entries(p))])
        else None
  }

  /** encode_stop_component_test. */
  function EncodeStop(commandId: int): Option<seq<Member>> {
    if commandId <= 0 then None else Some(StopMembers("1", Digits(commandId)))
  }

  predicate Names(parameters: Dictionary, name: string) {
    exists i :: 0 <= i < |parameters| && parameters[i].0 == name
  }

  /** What the encoders take: positive identifiers, types of a-z, 0-9 and underscore, and
      parameters that are the three colours and nothing else, each from 0 to 255. */
  lemma EncodersTake(commandId: int, uuid: string, testType: string, parameters: Option<Dictionary>)
    ensures EncodeStart(commandId, uuid).Some? <==> commandId > 0
    ensures EncodeStop(commandId).Some? <==> commandId > 0
    ensures EncodeRun(commandId, testType, parameters).Some? <==>
            && commandId > 0 && testType != ""
            && (forall i :: 0 <= i < |testType| ==>
                  'a' <= testType[i] <= 'z' || '0' <= testType[i] <= '9' || testType[i] == '_')
            && (parameters.Some? ==>
                  && |parameters.value| == 3 && Names(parameters.value, "red") && Names(parameters.value, "green")
                  && Names(parameters.value, "blue")
                  && forall i :: 0 <= i < 3 ==> 0 <= parameters.value[i].1 <= 255)
  {
    if parameters.Some? {
      var p := parameters.value;
      assert IsRgbDictionary(p) ==> Names(p, "red") && Names(p, "green") && Names(p, "blue");
    }
  }

  lemma OneDenotes(commandId: nat)
    requires commandId > 0
    ensures Header("1", Digits(commandId), commandId) <==> commandId <= UINT32_MAX
    ensures IsPositive(Number(Digits(commandId))) <==> commandId <= UINT32_MAX
  {
    DigitsReadBack(commandId);
    assert AllDigits("1") && "1"[..0] == [];
  }

  /** An accepted encoding has an identifier the firmware can hold. */
  lemma IdentifierFits(doc: seq<Member>, commandId: nat)
    requires Accepted(doc, IsField) && commandId > 0 && Field("command_id", Number(Digits(commandId))) in doc
    ensures commandId <= UINT32_MAX
  {
    AcceptedIff(doc, IsField);
    OneDenotes(commandId);
    assert IsField(Field("command_id", Number(Digits(commandId))));
  }

  /** START_TEST is understood exactly for 32-bit identifiers and version 4 UUIDs. */
  lemma StartRoundTrip(commandId: int, uuid: string)
    requires commandId > 0 && IsUuid(uuid)
    ensures var parsed := Parsed(EncodeStart(commandId, uuid).value);
            && (parsed.Some? <==> commandId <= UINT32_MAX && uuid[14] == '4')
            && (parsed.Some? ==> parsed.value == Request(StartTest, commandId, uuid, "", None))
  {
    var doc := EncodeStart(commandId, uuid).value;
    OneDenotes(commandId);
    if Parsed(doc).Some? {
      IdentifierFits(doc, commandId);
      AcceptedIff(doc, IsField);
      assert doc[3] == Field("test_uuid", Text(uuid)) && IsField(doc[3]);
    }
    if commandId <= UINT32_MAX && uuid[14] == '4' {
      assert Consists(doc, StartMembers("1", Digits(commandId), uuid));
      StartAccepted(doc, Request(StartTest, commandId, uuid, "", None));
    }
  }

  /** STOP_COMPONENT_TEST exactly for 32-bit identifiers. */
  lemma StopRoundTrip(commandId: int)
    requires commandId > 0
    ensures var parsed := Parsed(EncodeStop(commandId).value);
            && (parsed.Some? <==> commandId <= UINT32_MAX)
            && (parsed.Some? ==> parsed.value == Request(StopComponentTest, commandId, "", "", None))
  {
    var doc := EncodeStop(commandId).value;
    OneDenotes(commandId);
    if Parsed(doc).Some? {
      IdentifierFits(doc, commandId);
    }
    if commandId <= UINT32_MAX {
      assert Consists(doc, StopMembers("1", Digits(commandId)));
      StopAccepted(doc, Request(StopComponentTest, commandId, "", "", None));
    }
  }

  lemma {:induction false} ValueOf(parameters: Dictionary, i: nat)
    requires i < |parameters|
    ensures Value(parameters, parameters[i].0) == parameters[i].1
  {
    if i < |parameters| - 1 {
      ValueOf(parameters[..|parameters| - 1], i);
    }
  }

  function DictionaryColour(parameters: Dictionary): Colour
    requires IsRgbDictionary(parameters)
  {
    Colour(Channel(parameters, "red"), Channel(parameters, "green"), Channel(parameters, "blue"))
  }

  function Channel(parameters: Dictionary, name: string): nat
    requires IsRgbDictionary(parameters)
  {
    if Value(parameters, name) < 0 then 0 else Value(parameters, name)
  }

  function GivenColour(parameters: Option<Dictionary>): Option<Colour>
    requires parameters.Some? ==> IsRgbDictionary(parameters.value)
  {
    if parameters.Some? then Some(DictionaryColour(parameters.value)) else None
  }

  lemma ChannelSaid(parameters: Dictionary, name: string)
    requires IsRgbDictionary(parameters) && exists i :: 0 <= i < 3 && parameters[i].0 == name
    ensures Channel(parameters, name) == Value(parameters, name)
    ensures Field(name, Number(Digits(Channel(parameters, name)))) in Entries(parameters)
    ensures Denotes(Digits(Channel(parameters, name)), Channel(parameters, name), UINT8_MAX)
  {
    var i :| 0 <= i < 3 && parameters[i].0 == name;
    ValueOf(parameters, i);
    assert Entries(parameters)[i] == Field(name, Number(Digits(parameters[i].1)));
    DigitsReadBack(parameters[i].1);
  }

  lemma EntriesSayColour(parameters: Dictionary)
    requires IsRgbDictionary(parameters)
    ensures IsColour(Entries(parameters), DictionaryColour(parameters))
  {
    ChannelSaid(parameters, "red");
    ChannelSaid(parameters, "green");
    ChannelSaid(parameters, "blue");
    var c := DictionaryColour(parameters);
    assert Consists(Entries(parameters), RgbMembers(Digits(c.red), Digits(c.green), Digits(c.blue)));
  }

  /** RUN_COMPONENT_TEST exactly for 32-bit identifiers, types of at most 31 characters, and
      colour parameters given precisely for the RGB LED; the colour comes through unchanged. */
  lemma RunRoundTrip(commandId: int, testType: string, parameters: Option<Dictionary>)
    requires EncodeRun(commandId, testType, parameters).Some?
    ensures var parsed := Parsed(EncodeRun(commandId, testType, parameters).value);
            && (parsed.Some? <==>
                commandId <= UINT32_MAX && |testType| <= 31 && (parameters.Some? <==> testType == "rgb_led"))
            && (parsed.Some? ==>
                parsed.value == Request(RunComponentTest, commandId, "", testType, GivenColour(parameters)))
  {
    var doc := EncodeRun(commandId, testType, parameters).value;
    if Parsed(doc).Some? {
      RunNeeds(doc, commandId, testType, parameters);
    }
    if commandId <= UINT32_MAX && |testType| <= 31 && (parameters.Some? <==> testType == "rgb_led") {
      RunUnderstood(doc, commandId, testType, parameters);
    }
  }

  lemma PlainRunUnderstood(commandId: nat, testType: string)
    requires 0 < commandId <= UINT32_MAX && IsTestType(testType) && testType != "rgb_led"
    ensures Parsed(RunMembers("1", Digits(commandId), testType)) ==
            Some(Request(RunComponentTest, commandId, "", testType, None))
  {
    OneDenotes(commandId);
    DigitsReadBack(commandId);
    RunFields(RunMembers("1", Digits(commandId), testType), "1", Digits(commandId), commandId, testType);
  }

  lemma RgbRunUnderstood(commandId: nat, parameters: Dictionary)
    requires 0 < commandId <= UINT32_MAX && IsRgbDictionary(parameters)
    ensures Parsed(RunRgbMembers("1", Digits(commandId), Entries(parameters)))
            == Some(Request(RunComponentTest, commandId, "", "rgb_led", Some(DictionaryColour(parameters))))
  {
    OneDenotes(commandId);
    DigitsReadBack(commandId);
    EntriesSayColour(parameters);
    RunRgbFields(RunRgbMembers("1", Digits(commandId), Entries(parameters)), "1", Digits(commandId), commandId,
                 Entries(parameters), DictionaryColour(parameters));
  }

  lemma RunUnderstood(doc: seq<Member>, commandId: int, testType: string, parameters: Option<Dictionary>)
    requires EncodeRun(commandId, testType, parameters) == Some(doc)
    requires commandId <= UINT32_MAX && |testType| <= 31 && (parameters.Some? <==> testType == "rgb_led")
    ensures Parsed(doc) == Some(Request(RunComponentTest, commandId, "", testType, GivenColour(parameters)))
  {
    if parameters.None? {
      PlainRunUnderstood(commandId, testType);
    } else {
      RgbRunUnderstood(commandId, parameters.value);
      assert doc == RunRgbMembers("1", Digits(commandId), Entries(parameters.value));
    }
  }

  lemma RunNeeds(doc: seq<Member>, commandId: int, testType: string, parameters: Option<Dictionary>)
    requires EncodeRun(commandId, testType, parameters) == Some(doc) && Parsed(doc).Some?
    ensures commandId <= UINT32_MAX && |testType| <= 31 && (parameters.Some? <==> testType == "rgb_led")
  {
    RunFits(doc, commandId, testType, parameters);
    FindUnique(doc, "test_type", 3);
    FindUnique(doc, "type", 1);
    if parameters.Some? {
      FindUnique(doc, "parameters", 4);
    } else {
      FindSound(doc, "parameters");
    }
  }

  lemma RunFits(doc: seq<Member>, commandId: int, testType: string, parameters: Option<Dictionary>)
    requires EncodeRun(commandId, testType, parameters) == Some(doc) && Accepted(doc, IsField)
    ensures commandId <= UINT32_MAX && |testType| <= 31 && DistinctKeys(doc)
    ensures doc[1] == Field("type", Text("RUN_COMPONENT_TEST")) && doc[3] == Field("test_type", Text(testType))
  {
    assert doc[2] == Field("command_id", Number(Digits(commandId)));
    IdentifierFits(doc, commandId);
    AcceptedIff(doc, IsField);
    assert doc[3] == Field("test_type", Text(testType));
    TestTypeFits(doc[3], testType);
  }

  lemma TestTypeFits(m: Member, testType: string)
    requires m == Field("test_type", Text(testType)) && IsField(m)
    ensures |testType| <= 31
  {
    assert KeyOf(m.key) == TestTypeKey;
  }
}
