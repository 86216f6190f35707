/** Requests as documents: the members a token array spells out, which documents are accepted,
    and that order never matters. */
module RequestDocuments {
  import opened Options
  import opened Decimal

  const UINT32_MAX: nat := 0xFFFF_FFFF
  const UINT8_MAX: nat := 0xFF
  const PROTOCOL_VERSION: nat := 1
  const UUID_LENGTH: nat := 36
  const TEST_TYPE_CAPACITY: nat := 32

  /** `Composite` is an object or array where the parser expects a plain value. */
  datatype Value = Text(text: string) | Number(text: string) | Members(entries: seq<Member>) | Composite
  datatype Member = Member(key: Value, value: Value)

  datatype Kind = StartTest | RunComponentTest | StopComponentTest | Invalid | Unsupported

  datatype Colour = Colour(red: nat, green: nat, blue: nat)

  datatype Request = Request(kind: Kind, commandId: nat, testUuid: string, testType: string, colour: Option<Colour>)

  // ---------------------------------------------------------------- values

  predicate IsHexadecimal(c: char) {
    '0' <= c <= '9' || 'a' <= c <= 'f'
  }

  predicate IsHyphenPlace(i: int) {
    i == 8 || i == 13 || i == 18 || i == 23
  }

  predicate UuidCharacter(i: int, c: char) {
    if IsHyphenPlace(i) then c == '-' else IsHexadecimal(c)
  }

  /** A lower-case version 4 UUID. */
  predicate IsUuid4(text: string) {
    |text| == UUID_LENGTH && (forall i :: 0 <= i < UUID_LENGTH ==> UuidCharacter(i, text[i])) && text[14] == '4'
  }

  predicate TestTypeCharacter(c: char) {
    'a' <= c <= 'z' || '0' <= c <= '9' || c == '_'
  }

  predicate IsTestType(text: string) {
    0 < |text| < TEST_TYPE_CAPACITY && forall i :: 0 <= i < |text| ==> TestTypeCharacter(text[i])
  }

  predicate IsPositive(value: Value) {
    value.Number? && IsNumber(value.text, UINT32_MAX) && DecimalValue(value.text) > 0
  }

  predicate IsChannel(m: Member) {
    && (m.key == Text("red") || m.key == Text("green") || m.key == Text("blue"))
    && m.value.Number? && IsNumber(m.value.text, UINT8_MAX)
  }

  /** The six keys of a request. */
  datatype Key = VersionKey | TypeKey | CommandIdKey | TestUuidKey | TestTypeKey | ParametersKey | UnknownKey

  function KeyOf(key: Value): Key {
    if key == Text("protocol_version") then VersionKey
    else if key == Text("type") then TypeKey
    else if key == Text("command_id") then CommandIdKey
    else if key == Text("test_uuid") then TestUuidKey
    else if key == Text("test_type") then TestTypeKey
    else if key == Text("parameters") then ParametersKey
    else UnknownKey
  }

  predicate IsFieldValue(key: Key, value: Value) {
    match key
    case VersionKey => IsPositive(value) && DecimalValue(value.text) == PROTOCOL_VERSION
    case TypeKey => value.Text?
    case CommandIdKey => IsPositive(value)
    case TestUuidKey => value.Text? && IsUuid4(value.text)
    case TestTypeKey => value.Text? && IsTestType(value.text)
    case ParametersKey => value.Members? && IsRgb(value.entries)
    case UnknownKey => false
  }

  /** A member the parser takes, seen on its own. */
  predicate IsField(m: Member) {
    IsFieldValue(KeyOf(m.key), m.value)
  }

  // ---------------------------------------------------------------- documents

  /** The value of the last member with this key. */
  function Find(doc: seq<Member>, key: string): Option<Value> {
    if doc == [] then None
    else if doc[|doc| - 1].key == Text(key) then Some(doc[|doc| - 1].value)
    else Find(doc[..|doc| - 1], key)
  }

  predicate Has(doc: seq<Member>, key: string) {
    Find(doc, key).Some?
  }

  /** Every member good and every key new. */
  predicate Accepted(doc: seq<Member>, good: Member -> bool) {
    doc == [] ||
    (var init, last := doc[..|doc| - 1], doc[|doc| - 1];
     Accepted(init, good) && good(last) && last.key.Text? && !Has(init, last.key.text))
  }

  predicate IsRgb(entries: seq<Member>) {
    Accepted(entries, IsChannel) && Has(entries, "red") && Has(entries, "green") && Has(entries, "blue")
  }

  function NumberOf(value: Option<Value>): nat {
    if value.Some? && value.value.Number? && AllDigits(value.value.text) then DecimalValue(value.value.text) else 0
  }

  function TextOf(value: Option<Value>): string {
    if value.Some? && value.value.Text? then value.value.text else ""
  }

  function ColourOf(entries: seq<Member>): Colour {
    Colour(NumberOf(Find(entries, "red")), NumberOf(Find(entries, "green")), NumberOf(Find(entries, "blue")))
  }

  function KindNamed(name: string): Kind {
    if name == "START_TEST" then StartTest
    else if name == "RUN_COMPONENT_TEST" then RunComponentTest
    else if name == "STOP_COMPONENT_TEST" then StopComponentTest
    else Unsupported
  }

  function KindOf(value: Option<Value>): Kind {
    if value.Some? && value.value.Text? then KindNamed(value.value.text) else Invalid
  }

  /** The values found under the six keys; the parameters only through their colour. */
  datatype Fields = Fields(version: Option<Value>, kind: Option<Value>, commandId: Option<Value>,
                           testUuid: Option<Value>, testType: Option<Value>, colour: Option<Colour>)

  function ParametersOf(value: Option<Value>): Option<Colour> {
    match value
    case None => None
    case Some(Members(entries)) => Some(ColourOf(entries))
    case Some(_) => Some(Colour(0, 0, 0))
  }

  function FieldsOf(doc: seq<Member>): Fields {
    Fields(Find(doc, "protocol_version"), Find(doc, "type"), Find(doc, "command_id"), Find(doc, "test_uuid"),
           Find(doc, "test_type"), ParametersOf(Find(doc, "parameters")))
  }

  /** What the request structure holds after these fields. */
  function RequestOf(f: Fields): Request {
    Request(KindOf(f.kind), NumberOf(f.commandId), TextOf(f.testUuid), TextOf(f.testType), f.colour)
  }

  /** The parser's final test; `tokens` is the token count. */
  predicate Complete(f: Fields, tokens: nat) {
    && f.version.Some? && f.kind.Some? && f.commandId.Some?
    && match KindOf(f.kind)
       case StartTest => tokens == 9 && f.testUuid.Some? && f.testType.None? && f.colour.None?
       case RunComponentTest =>
         && f.testType.Some? && f.testUuid.None?
         && (if TextOf(f.testType) == "rgb_led" then tokens == 17 && f.colour.Some? else tokens == 9 && f.colour.None?)
       case StopComponentTest => tokens == 7 && f.testUuid.None? && f.testType.None? && f.colour.None?
       case _ => false
  }

  /** The tokens a document takes: the outer object, two for each member, two for each entry. */
  function TokenCount(doc: seq<Member>): nat {
    if doc == [] then 1
    else TokenCount(doc[..|doc| - 1]) + 2 +
         (if doc[|doc| - 1].value.Members? then 2 * |doc[|doc| - 1].value.entries| else 0)
  }

  /** json_protocol_parse_request on the document. */
  function Parsed(doc: seq<Member>): Option<Request> {
    if Accepted(doc, IsField) && Complete(FieldsOf(doc), TokenCount(doc)) then Some(RequestOf(FieldsOf(doc))) else None
  }

  // ---------------------------------------------------------------- accepted documents

  predicate DistinctKeys(doc: seq<Member>) {
    && (forall i :: 0 <= i < |doc| ==> doc[i].key.Text?)
    && forall i, j :: 0 <= i < j < |doc| ==> doc[i].key != doc[j].key
  }

  lemma FindSnoc(prefix: seq<Member>, m: Member, key: string)
    ensures Find(prefix + [m], key) == if m.key == Text(key) then Some(m.value) else Find(prefix, key)
  {
    assert (prefix + [m])[..|prefix|] == prefix;
  }

  lemma AcceptedSnoc(prefix: seq<Member>, m: Member, good: Member -> bool)
    ensures Accepted(prefix + [m], good) <==>
            Accepted(prefix, good) && good(m) && m.key.Text? && !Has(prefix, m.key.text)
  {
    assert (prefix + [m])[..|prefix|] == prefix;
  }

  lemma {:induction false} FindSound(doc: seq<Member>, key: string)
    ensures Has(doc, key) ==> Member(Text(key), Find(doc, key).value) in doc
    ensures !Has(doc, key) ==> forall i :: 0 <= i < |doc| ==> doc[i].key != Text(key)
  {
    if doc != [] && doc[|doc| - 1].key != Text(key) {
      FindSound(doc[..|doc| - 1], key);
    } else if doc != [] {
      assert doc[|doc| - 1] == Member(Text(key), Find(doc, key).value);
    }
  }

  lemma {:induction false} FindUnique(doc: seq<Member>, key: string, i: nat)
    requires DistinctKeys(doc) && i < |doc| && doc[i].key == Text(key)
    ensures Find(doc, key) == Some(doc[i].value)
  {
    if i < |doc| - 1 {
      FindUnique(doc[..|doc| - 1], key, i);
    }
  }

  /** Accepted means: all members good and no key twice. */
  lemma {:induction false} AcceptedIff(doc: seq<Member>, good: Member -> bool)
    ensures Accepted(doc, good) <==> (forall i :: 0 <= i < |doc| ==> good(doc[i])) && DistinctKeys(doc)
  {
    if doc != [] {
      var init, last := doc[..|doc| - 1], doc[|doc| - 1];
      AcceptedIff(init, good);
      if Accepted(doc, good) {
        FindSound(init, last.key.text);
        forall i | 0 <= i < |doc| ensures good(doc[i]) && doc[i].key.Text? {
          assert i < |init| ==> doc[i] == init[i];
        }
        forall i, j | 0 <= i < j < |doc| ensures doc[i].key != doc[j].key {
          assert doc[i] == init[i] && (j < |init| ==> doc[j] == init[j]);
        }
      } else if (forall i :: 0 <= i < |doc| ==> good(doc[i])) && DistinctKeys(doc) {
        assert doc[|doc| - 1] == last;
        assert DistinctKeys(init) && Accepted(init, good);
        FindSound(init, last.key.text);
      }
    }
  }

  lemma {:induction false} AcceptedPrefix(doc: seq<Member>, good: Member -> bool, n: nat)
    requires Accepted(doc, good) && n <= |doc|
    ensures Accepted(doc[..n], good)
  {
    if n < |doc| {
      AcceptedPrefix(doc[..|doc| - 1], good, n);
      assert doc[..|doc| - 1][..n] == doc[..n];
    } else {
      assert doc[..n] == doc;
    }
  }

  /** `doc` is exactly these members, in any order. */
  predicate Consists(doc: seq<Member>, members: seq<Member>) {
    |doc| == |members| && forall m :: m in members ==> m in doc
  }

  function Without(doc: seq<Member>, j: nat): seq<Member>
    requires j < |doc|
  {
    doc[..j] + doc[j + 1..]
  }

  lemma WithoutKeeps(doc: seq<Member>, j: nat, m: Member)
    requires j < |doc| && m in doc && m != doc[j]
    ensures m in Without(doc, j)
  {
  }

  lemma WithoutDistinct(doc: seq<Member>, j: nat)
    requires j < |doc| && DistinctKeys(Without(doc, j)) && doc[j].key.Text?
    requires forall i :: 0 <= i < |doc| - 1 ==> Without(doc, j)[i].key != doc[j].key
    ensures DistinctKeys(doc)
  {
    var rest := Without(doc, j);
    forall i | 0 <= i < |doc| && i != j ensures doc[i] == rest[if i < j then i else i - 1] {
    }
  }

  /** As many members as there are distinct wanted ones: nothing else fits in. */
  lemma {:induction false} ConsistsOfDistinct(doc: seq<Member>, members: seq<Member>)
    requires Consists(doc, members) && DistinctKeys(members)
    ensures DistinctKeys(doc) && forall i :: 0 <= i < |doc| ==> doc[i] in members
    decreases |members|
  {
    if members != [] {
      var init, last := members[..|members| - 1], members[|members| - 1];
      assert last in members && last in doc;
      var j :| 0 <= j < |doc| && doc[j] == last;
      forall m | m in init ensures m in Without(doc, j) {
        assert m in members && m in doc;
        WithoutKeeps(doc, j, m);
      }
      ConsistsOfDistinct(Without(doc, j), init);
      WithoutDistinct(doc, j);
      forall i | 0 <= i < |doc| ensures doc[i] in members {
        if doc[i] != last {
          WithoutKeeps(doc, j, doc[i]);
        }
      }
    }
  }

  /** A document made of good members with different keys is accepted and finds each of them. */
  lemma ConsistsAccepted(doc: seq<Member>, members: seq<Member>, good: Member -> bool)
    requires Consists(doc, members) && DistinctKeys(members) && forall m :: m in members ==> good(m)
    ensures Accepted(doc, good)
    ensures forall key :: Find(doc, key) == Find(members, key)
  {
    ConsistsOfDistinct(doc, members);
    AcceptedIff(doc, good);
    forall key ensures Find(doc, key) == Find(members, key) {
      FindSound(doc, key);
      FindSound(members, key);
      if Has(members, key) {
        var m := Member(Text(key), Find(members, key).value);
        var i :| 0 <= i < |doc| && doc[i] == m;
        FindUnique(doc, key, i);
      } else {
        forall i | 0 <= i < |doc| ensures doc[i].key != Text(key) {
          assert doc[i] in members;
        }
      }
    }
  }

  /** Whatever parses is one of the three requests, with an identifier. */
  lemma ParsedIsKnown(doc: seq<Member>)
    requires Parsed(doc).Some?
    ensures var r := Parsed(doc).value; r.commandId > 0 && r.kind != Unsupported && r.kind != Invalid
  {
    FindSound(doc, "command_id");
    var m := Member(Text("command_id"), Find(doc, "command_id").value);
    AcceptedIff(doc, IsField);
    assert IsField(m) && KeyOf(m.key) == CommandIdKey;
  }

  // ---------------------------------------------------------------- order does not matter

  lemma PermutationConsists(doc: seq<Member>, other: seq<Member>)
    requires multiset(doc) == multiset(other)
    ensures Consists(other, doc)
  {
    assert |doc| == |multiset(doc)| == |multiset(other)| == |other|;
    forall m | m in doc ensures m in other {
      assert m in multiset(doc);
    }
  }

  lemma PermutationAccepted(doc: seq<Member>, other: seq<Member>, good: Member -> bool)
    requires multiset(doc) == multiset(other) && Accepted(doc, good)
    ensures Accepted(other, good) && forall key :: Find(other, key) == Find(doc, key)
  {
    AcceptedIff(doc, good);
    PermutationConsists(doc, other);
    ConsistsAccepted(other, doc, good);
  }

  lemma {:induction false} TokenCountAppend(a: seq<Member>, b: seq<Member>)
    ensures TokenCount(a + b) == TokenCount(a) + TokenCount(b) - 1
  {
    if b == [] {
      assert a + b == a;
    } else {
      assert (a + b)[..|a + b| - 1] == a + b[..|b| - 1];
      TokenCountAppend(a, b[..|b| - 1]);
    }
  }

  lemma {:induction false} TokenCountPermuted(doc: seq<Member>, other: seq<Member>)
    requires multiset(doc) == multiset(other)
    ensures TokenCount(doc) == TokenCount(other)
    decreases |doc|
  {
    PermutationConsists(doc, other);
    if doc != [] {
      var init, last := doc[..|doc| - 1], doc[|doc| - 1];
      assert doc == init + [last];
      assert doc[|doc| - 1] in doc && last in other;
      var j :| 0 <= j < |other| && other[j] == last;
      var before, after := other[..j], other[j + 1..];
      assert other == before + [last] + after;
      assert multiset(init) == multiset(doc) - multiset{last} == multiset(before + after);
      TokenCountPermuted(init, before + after);
      TokenCountAppend(before, after);
      TokenCountAppend(before + [last], after);
      TokenCountAppend(before, [last]);
      TokenCountAppend(init, [last]);
    }
  }

  predicate SameFields(a: seq<Member>, b: seq<Member>) {
    FieldsOf(a) == FieldsOf(b) && TokenCount(a) == TokenCount(b)
  }

  lemma ParsedByFields(a: seq<Member>, b: seq<Member>)
    requires Accepted(a, IsField) <==> Accepted(b, IsField)
    requires Accepted(a, IsField) ==> SameFields(a, b)
    ensures Parsed(a) == Parsed(b)
  {
  }

  lemma PermutationSameFields(doc: seq<Member>, other: seq<Member>)
    requires multiset(doc) == multiset(other) && Accepted(doc, IsField)
    ensures Accepted(other, IsField) && SameFields(doc, other)
  {
    PermutationAccepted(doc, other, IsField);
    TokenCountPermuted(doc, other);
  }

  /** Reordering the outer fields never changes the result. */
  lemma FieldOrderIrrelevant(doc: seq<Member>, other: seq<Member>)
    requires multiset(doc) == multiset(other)
    ensures Parsed(doc) == Parsed(other)
  {
    if Accepted(doc, IsField) {
      PermutationSameFields(doc, other);
    } else if Accepted(other, IsField) {
      PermutationSameFields(other, doc);
    }
    ParsedByFields(doc, other);
  }

  lemma RgbOrder(entries: seq<Member>, other: seq<Member>)
    requires multiset(entries) == multiset(other)
    ensures IsRgb(entries) <==> IsRgb(other)
    ensures IsRgb(entries) ==> ColourOf(entries) == ColourOf(other)
  {
    if Accepted(entries, IsChannel) {
      PermutationAccepted(entries, other, IsChannel);
    } else if Accepted(other, IsChannel) {
      PermutationAccepted(other, entries, IsChannel);
    }
  }

  function Parameters(entries: seq<Member>): Member {
    Member(Text("parameters"), Members(entries))
  }

  lemma {:induction false} FindElsewhere(doc: seq<Member>, i: nat, m: Member, n: Member, key: string)
    requires i < |doc| && m.key != Text(key) && n.key != Text(key)
    ensures Find(doc[i := m], key) == Find(doc[i := n], key)
  {
    var init := doc[..|doc| - 1];
    if i < |init| {
      FindElsewhere(init, i, m, n, key);
      assert doc[i := m][..|init|] == init[i := m] && doc[i := n][..|init|] == init[i := n];
    } else {
      assert doc[i := m][..|init|] == init == doc[i := n][..|init|];
    }
  }

  lemma TokenCountReplaced(doc: seq<Member>, i: nat, entries: seq<Member>, other: seq<Member>)
    requires i < |doc| && |entries| == |other|
    ensures TokenCount(doc[i := Parameters(entries)]) == TokenCount(doc[i := Parameters(other)])
  {
    assert doc[i := Parameters(entries)] == doc[..i] + [Parameters(entries)] + doc[i + 1..];
    assert doc[i := Parameters(other)] == doc[..i] + [Parameters(other)] + doc[i + 1..];
    TokenCountAppend(doc[..i] + [Parameters(entries)], doc[i + 1..]);
    TokenCountAppend(doc[..i] + [Parameters(other)], doc[i + 1..]);
    TokenCountAppend(doc[..i], [Parameters(entries)]);
    TokenCountAppend(doc[..i], [Parameters(other)]);
  }

  lemma ParametersAccepted(doc: seq<Member>, i: nat, entries: seq<Member>, other: seq<Member>)
    requires i < |doc| && multiset(entries) == multiset(other)
    requires Accepted(doc[i := Parameters(entries)], IsField)
    ensures Accepted(doc[i := Parameters(other)], IsField)
    ensures ColourOf(entries) == ColourOf(other)
  {
    var a, b := doc[i := Parameters(entries)], doc[i := Parameters(other)];
    AcceptedIff(a, IsField);
    AcceptedIff(b, IsField);
    assert IsField(a[i]);
    RgbOrder(entries, other);
    forall j | 0 <= j < |b| ensures IsField(b[j]) && b[j].key == a[j].key {
      assert IsField(a[j]);
    }
  }

  lemma ParametersFound(doc: seq<Member>, i: nat, entries: seq<Member>)
    requires i < |doc| && Accepted(doc[i := Parameters(entries)], IsField)
    ensures ParametersOf(Find(doc[i := Parameters(entries)], "parameters")) == Some(ColourOf(entries))
  {
    AcceptedIff(doc[i := Parameters(entries)], IsField);
    FindUnique(doc[i := Parameters(entries)], "parameters", i);
  }

  lemma ParametersSameFields(doc: seq<Member>, i: nat, entries: seq<Member>, other: seq<Member>)
    requires i < |doc| && multiset(entries) == multiset(other)
    requires Accepted(doc[i := Parameters(entries)], IsField)
    ensures Accepted(doc[i := Parameters(other)], IsField)
    ensures SameFields(doc[i := Parameters(entries)], doc[i := Parameters(other)])
  {
    PermutationConsists(entries, other);
    ParametersAccepted(doc, i, entries, other);
    ParametersFound(doc, i, entries);
    ParametersFound(doc, i, other);
    TokenCountReplaced(doc, i, entries, other);
    FindElsewhere(doc, i, Parameters(entries), Parameters(other), "protocol_version");
    FindElsewhere(doc, i, Parameters(entries), Parameters(other), "type");
    FindElsewhere(doc, i, Parameters(entries), Parameters(other), "command_id");
    FindElsewhere(doc, i, Parameters(entries), Parameters(other), "test_uuid");
    FindElsewhere(doc, i, Parameters(entries), Parameters(other), "test_type");
  }

  /** Nor does reordering the colour channels. */
  lemma ChannelOrderIrrelevant(doc: seq<Member>, i: nat, entries: seq<Member>, other: seq<Member>)
    requires i < |doc| && multiset(entries) == multiset(other)
    ensures Parsed(doc[i := Parameters(entries)]) == Parsed(doc[i := Parameters(other)])
  {
    var a, b := doc[i := Parameters(entries)], doc[i := Parameters(other)];
    if Accepted(a, IsField) {
      ParametersSameFields(doc, i, entries, other);
    } else if Accepted(b, IsField) {
      ParametersSameFields(doc, i, other, entries);
    }
    ParsedByFields(a, b);
  }
}
