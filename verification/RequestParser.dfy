/** The request parser over a token array: it reads no token past the count, and it computes
    exactly what the document it spells out parses to. */
module RequestParser {
  import opened Options
  import opened Decimal
  import opened RequestDocuments
  import S = RequestShapes

  datatype TokenKind = ObjectToken | ArrayToken | StringToken | PrimitiveToken

  /** A jsmn token: `line[start..end]`, the quotes of a string excluded. */
  datatype Token = Token(kind: TokenKind, start: nat, end: nat)

  predicate InLine(line: string, tokens: seq<Token>) {
    forall i :: 0 <= i < |tokens| ==> tokens[i].start <= tokens[i].end <= |line|
  }

  // ---------------------------------------------------------------- the document in the tokens

  function ValueAt(line: string, token: Token): Value
    requires token.start <= token.end <= |line|
  {
    match token.kind
    case StringToken => Text(line[token.start..token.end])
    case PrimitiveToken => Number(line[token.start..token.end])
    case _ => Composite
  }

  /** How many token pairs from `index` on start before position `end`. */
  function PairsBefore(tokens: seq<Token>, index: nat, end: nat): (n: nat)
    ensures n > 0 ==> index + 2 * n <= |tokens|
    decreases |tokens| - index
  {
    if index + 1 < |tokens| && tokens[index].start < end then 1 + PairsBefore(tokens, index + 2, end) else 0
  }

  function PairAt(line: string, tokens: seq<Token>, index: nat): Member
    requires InLine(line, tokens) && index + 1 < |tokens|
  {
    Member(ValueAt(line, tokens[index]), ValueAt(line, tokens[index + 1]))
  }

  function Pairs(line: string, tokens: seq<Token>, index: nat, n: nat): (pairs: seq<Member>)
    requires InLine(line, tokens) && (n > 0 ==> index + 2 * n <= |tokens|)
    ensures |pairs| == n
    decreases n
  {
    if n == 0 then []
    else Pairs(line, tokens, index, n - 1) + [PairAt(line, tokens, index + 2 * (n - 1))]
  }

  /** How many pairs follow inside the value of the key at `index`. */
  function EntryCount(tokens: seq<Token>, index: nat): (n: nat)
    requires index + 1 < |tokens|
    ensures n > 0 ==> index + 2 + 2 * n <= |tokens|
  {
    if tokens[index + 1].kind == ObjectToken then PairsBefore(tokens, index + 2, tokens[index + 1].end) else 0
  }

  /** The member whose key is token `index`; an object takes the pairs inside it. */
  function MemberAt(line: string, tokens: seq<Token>, index: nat): Member
    requires InLine(line, tokens) && index + 1 < |tokens|
  {
    Member(ValueAt(line, tokens[index]),
           if tokens[index + 1].kind == ObjectToken
           then Members(Pairs(line, tokens, index + 2, EntryCount(tokens, index)))
           else ValueAt(line, tokens[index + 1]))
  }

  /** The members in the last `left` pairs of tokens. */
  function DocumentFrom(line: string, tokens: seq<Token>, index: nat, left: nat): seq<Member>
    requires InLine(line, tokens) && index + 2 * left == |tokens|
    decreases left
  {
    if left == 0 then []
    else
      [MemberAt(line, tokens, index)] +
      DocumentFrom(line, tokens, index + 2 + 2 * EntryCount(tokens, index), left - 1 - EntryCount(tokens, index))
  }

  /** The document a whole token array spells out. */
  function Document(line: string, tokens: seq<Token>): seq<Member>
    requires InLine(line, tokens) && |tokens| % 2 == 1
  {
    DocumentFrom(line, tokens, 1, |tokens| / 2)
  }

  lemma MemberTokens(line: string, tokens: seq<Token>, index: nat)
    requires InLine(line, tokens) && index + 1 < |tokens|
    ensures TokenCount([MemberAt(line, tokens, index)]) == 3 + 2 * EntryCount(tokens, index)
  {
  }

  lemma DocumentStep(line: string, tokens: seq<Token>, index: nat, left: nat, n: nat)
    requires InLine(line, tokens) && index + 2 * left == |tokens| && left > 0 && n == EntryCount(tokens, index)
    ensures n < left
    ensures DocumentFrom(line, tokens, index, left)
            == [MemberAt(line, tokens, index)] + DocumentFrom(line, tokens, index + 2 + 2 * n, left - 1 - n)
  {
  }

  lemma {:induction false} DocumentTokens(line: string, tokens: seq<Token>, index: nat, left: nat)
    requires InLine(line, tokens) && index + 2 * left == |tokens|
    ensures TokenCount(DocumentFrom(line, tokens, index, left)) == 1 + 2 * left
    decreases left
  {
    if left > 0 {
      var n := EntryCount(tokens, index);
      DocumentStep(line, tokens, index, left, n);
      var rest := DocumentFrom(line, tokens, index + 2 + 2 * n, left - 1 - n);
      DocumentTokens(line, tokens, index + 2 + 2 * n, left - 1 - n);
      MemberTokens(line, tokens, index);
      TokenCountAppend([MemberAt(line, tokens, index)], rest);
    }
  }

  // ---------------------------------------------------------------- tokens

  method TokenEquals(line: string, token: Token, value: string) returns (equal: bool)
    requires token.start <= token.end <= |line|
    ensures equal <==> ValueAt(line, token) == Text(value)
  {
    equal := token.kind == StringToken && token.end - token.start == |value| && line[token.start..token.end] == value;
  }

  lemma DigitsGrow(line: string, start: nat, index: nat)
    requires start <= index < |line| && AllDigits(line[start..index]) && IsDigit(line[index])
    ensures AllDigits(line[start..index + 1])
    ensures DecimalValue(line[start..index + 1]) == 10 * DecimalValue(line[start..index]) + DigitValue(line[index])
  {
    assert line[start..index + 1][..index - start] == line[start..index];
  }

  lemma EarlyRejection(line: string, start: nat, index: nat, end: nat, limit: nat)
    requires start <= index < end <= |line| && AllDigits(line[start..index])
    requires !IsDigit(line[index]) ||
             (AllDigits(line[start..index + 1]) && DecimalValue(line[start..index + 1]) > limit)
    ensures !IsNumber(line[start..end], limit)
  {
    var text := line[start..end];
    assert text[index - start] == line[index];
    if AllDigits(text) {
      PrefixValueAtMost(text, index + 1 - start);
      assert text[..index + 1 - start] == line[start..index + 1];
    }
  }

  /** The digit loop shared by parse_positive_uint32 and parse_uint8, with their limits. */
  method ParseDecimal(line: string, token: Token, limit: nat) returns (ok: bool, value: nat)
    requires token.start <= token.end <= |line|
    ensures ok <==> token.kind == PrimitiveToken && IsNumber(line[token.start..token.end], limit)
    ensures ok ==> value == DecimalValue(line[token.start..token.end])
  {
    value := 0;
    if token.kind != PrimitiveToken || token.start == token.end {
      return false, 0;
    }
    for index := token.start to token.end
      invariant AllDigits(line[token.start..index]) && value == DecimalValue(line[token.start..index]) <= limit
    {
      if line[index] < '0' || line[index] > '9' {
        EarlyRejection(line, token.start, index, token.end, limit);
        return false, 0;
      }
      DigitsGrow(line, token.start, index);
      value := 10 * value + DigitValue(line[index]);
      if value > limit {
        EarlyRejection(line, token.start, index, token.end, limit);
        return false, 0;
      }
    }
    ok := true;
  }

  method ParsePositiveUint32(line: string, token: Token) returns (ok: bool, value: nat)
    requires token.start <= token.end <= |line|
    ensures ok <==> IsPositive(ValueAt(line, token))
    ensures var text := line[token.start..token.end];
            ok <==> token.kind == PrimitiveToken && text != "" && AllDigits(text) &&
                    1 <= DecimalValue(text) <= 4294967295
    ensures ok ==> value == DecimalValue(ValueAt(line, token).text)
  {
    ok, value := ParseDecimal(line, token, UINT32_MAX);
    ok := ok && value != 0;
  }

  method CopyTestUuid(line: string, token: Token) returns (ok: bool, uuid: string)
    requires token.start <= token.end <= |line|
    ensures ok <==> token.kind == StringToken && IsUuid4(line[token.start..token.end])
    ensures var text := line[token.start..token.end];
            ok <==> token.kind == StringToken && |text| == 36 && text[14] == '4' &&
                    forall i :: 0 <= i < 36 ==>
                      if i in {8, 13, 18, 23} then text[i] == '-'
                      else '0' <= text[i] <= '9' || 'a' <= text[i] <= 'f'
    ensures ok ==> uuid == line[token.start..token.end]
  {
    ghost var text := line[token.start..token.end];
    uuid := "";
    if token.kind != StringToken || token.end - token.start != UUID_LENGTH || '\\' in line[token.start..token.end] {
      return false, "";
    }
    for index := 0 to UUID_LENGTH
      invariant forall i :: 0 <= i < index ==> UuidCharacter(i, text[i])
    {
      var character := line[token.start + index];
      var hyphen := index == 8 || index == 13 || index == 18 || index == 23;
      var hexadecimal := '0' <= character <= '9' || 'a' <= character <= 'f';
      if (hyphen && character != '-') || (!hyphen && !hexadecimal) {
        assert !UuidCharacter(index, text[index]);
        return false, "";
      }
    }
    if line[token.start + 14] != '4' {
      return false, "";
    }
    uuid := line[token.start..token.end];
    ok := true;
  }

  method CopyTestType(line: string, token: Token) returns (ok: bool, testType: string)
    requires token.start <= token.end <= |line|
    ensures ok <==> token.kind == StringToken && IsTestType(line[token.start..token.end])
    ensures var text := line[token.start..token.end];
            ok <==> token.kind == StringToken && 1 <= |text| <= 31 &&
                    forall i :: 0 <= i < |text| ==>
                      'a' <= text[i] <= 'z' || '0' <= text[i] <= '9' || text[i] == '_'
    ensures ok ==> testType == line[token.start..token.end]
  {
    var length := token.end - token.start;
    ghost var text := line[token.start..token.end];
    testType := "";
    if token.kind != StringToken || length == 0 || length >= TEST_TYPE_CAPACITY ||
        '\\' in line[token.start..token.end] {
      return false, "";
    }
    for index := 0 to length
      invariant forall i :: 0 <= i < index ==> TestTypeCharacter(text[i])
    {
      var character := line[token.start + index];
      if !('a' <= character <= 'z' || '0' <= character <= '9' || character == '_') {
        assert !TestTypeCharacter(text[index]);
        return false, "";
      }
    }
    testType := line[token.start..token.end];
    ok := true;
  }

  // ---------------------------------------------------------------- the colour object

  lemma {:induction false} PairsPrefix(line: string, tokens: seq<Token>, index: nat, n: nat, k: nat)
    requires InLine(line, tokens) && (n > 0 ==> index + 2 * n <= |tokens|) && k <= n
    ensures Pairs(line, tokens, index, n)[..k] == Pairs(line, tokens, index, k)
  {
    if k < n {
      PairsPrefix(line, tokens, index, n - 1, k);
    }
  }

  method ParseUint8(line: string, token: Token) returns (ok: bool, value: nat)
    requires token.start <= token.end <= |line|
    ensures ok <==> ValueAt(line, token).Number? && IsNumber(ValueAt(line, token).text, UINT8_MAX)
    ensures ok ==> value == DecimalValue(ValueAt(line, token).text)
    ensures var text := line[token.start..token.end];
            ok <==> token.kind == PrimitiveToken && text != "" && AllDigits(text) && DecimalValue(text) <= 255
  {
    ok, value := ParseDecimal(line, token, UINT8_MAX);
  }

  datatype ChannelsSeen = ChannelsSeen(red: Option<nat>, green: Option<nat>, blue: Option<nat>)

  function ChannelIn(entries: seq<Member>, name: string): Option<nat> {
    if Has(entries, name) then Some(NumberOf(Find(entries, name))) else None
  }

  function ChannelsIn(entries: seq<Member>): ChannelsSeen {
    ChannelsSeen(ChannelIn(entries, "red"), ChannelIn(entries, "green"), ChannelIn(entries, "blue"))
  }

  /** After `k` of the `n` pairs. */
  predicate ChannelsRead(line: string, tokens: seq<Token>, start: nat, n: nat, k: nat, seen: ChannelsSeen)
    requires InLine(line, tokens) && (n > 0 ==> start + 2 * n <= |tokens|)
  {
    k <= n && Accepted(Pairs(line, tokens, start, k), IsChannel) && seen == ChannelsIn(Pairs(line, tokens, start, k))
  }

  /** The channels after one more pair, None if it is refused. */
  function TakenChannel(seen: ChannelsSeen, m: Member): Option<ChannelsSeen> {
    if !m.value.Number? || !IsNumber(m.value.text, UINT8_MAX) then None
    else if m.key == Text("red") then
      if seen.red.None? then Some(seen.(red := Some(DecimalValue(m.value.text)))) else None
    else if m.key == Text("green") then
      if seen.green.None? then Some(seen.(green := Some(DecimalValue(m.value.text)))) else None
    else if m.key == Text("blue") then
      if seen.blue.None? then Some(seen.(blue := Some(DecimalValue(m.value.text)))) else None
    else None
  }

  lemma AcceptedChannel(prefix: seq<Member>, m: Member)
    requires Accepted(prefix, IsChannel)
    ensures Accepted(prefix + [m], IsChannel) <==> TakenChannel(ChannelsIn(prefix), m).Some?
    ensures Accepted(prefix + [m], IsChannel) ==> TakenChannel(ChannelsIn(prefix), m) == Some(ChannelsIn(prefix + [m]))
  {
    AcceptedSnoc(prefix, m, IsChannel);
    FindSnoc(prefix, m, "red");
    FindSnoc(prefix, m, "green");
    FindSnoc(prefix, m, "blue");
  }

  lemma NextPair(line: string, tokens: seq<Token>, index: nat, n: nat, k: nat)
    requires InLine(line, tokens) && index + 2 * n <= |tokens| && k < n
    ensures Pairs(line, tokens, index, k + 1) == Pairs(line, tokens, index, k) + [PairAt(line, tokens, index + 2 * k)]
    ensures Accepted(Pairs(line, tokens, index, n), IsChannel) ==>
            Accepted(Pairs(line, tokens, index, k + 1), IsChannel)
  {
    PairsPrefix(line, tokens, index, n, k + 1);
    if Accepted(Pairs(line, tokens, index, n), IsChannel) {
      AcceptedPrefix(Pairs(line, tokens, index, n), IsChannel, k + 1);
    }
  }

  lemma NextChannel(line: string, tokens: seq<Token>, start: nat, n: nat, k: nat, seen: ChannelsSeen, m: Member,
                    g: ChannelsSeen)
    requires InLine(line, tokens) && start + 2 * n <= |tokens| && k < n && ChannelsRead(line, tokens, start, n, k, seen)
    requires m == PairAt(line, tokens, start + 2 * k) && TakenChannel(seen, m) == Some(g)
    ensures ChannelsRead(line, tokens, start, n, k + 1, g)
  {
    NextPair(line, tokens, start, n, k);
    AcceptedChannel(Pairs(line, tokens, start, k), m);
  }

  lemma ChannelRefused(line: string, tokens: seq<Token>, start: nat, n: nat, k: nat, seen: ChannelsSeen, m: Member)
    requires InLine(line, tokens) && start + 2 * n <= |tokens| && k < n && ChannelsRead(line, tokens, start, n, k, seen)
    requires m == PairAt(line, tokens, start + 2 * k) && TakenChannel(seen, m).None?
    ensures !Accepted(Pairs(line, tokens, start, n), IsChannel)
  {
    NextPair(line, tokens, start, n, k);
    AcceptedChannel(Pairs(line, tokens, start, k), m);
  }

  method TakeChannel(line: string, key: Token, value: Token, before: ChannelsSeen)
    returns (ok: bool, seen: ChannelsSeen)
    requires key.start <= key.end <= |line| && value.start <= value.end <= |line|
    ensures TakenChannel(before, Member(ValueAt(line, key), ValueAt(line, value))) == if ok then Some(seen) else None
  {
    var channel;
    ok, channel := ParseUint8(line, value);
    seen := before;
    var equal := TokenEquals(line, key, "red");
    if equal {
      ok, seen := ok && before.red.None?, before.(red := Some(channel));
      return;
    }
    equal := TokenEquals(line, key, "green");
    if equal {
      ok, seen := ok && before.green.None?, before.(green := Some(channel));
      return;
    }
    equal := TokenEquals(line, key, "blue");
    ok := ok && equal && before.blue.None?;
    seen := before.(blue := Some(channel));
  }

  /** The body of the colour loop. */
  method ParseChannel(line: string, tokens: seq<Token>, start: nat, ghost n: nat, ghost k: nat, index: nat,
                      before: ChannelsSeen)
    returns (ok: bool, seen: ChannelsSeen)
    requires InLine(line, tokens) && start + 2 * n <= |tokens| && k < n && index == start + 2 * k
    requires ChannelsRead(line, tokens, start, n, k, before)
    ensures ok ==> ChannelsRead(line, tokens, start, n, k + 1, seen)
    ensures !ok ==> !Accepted(Pairs(line, tokens, start, n), IsChannel)
  {
    ok, seen := TakeChannel(line, tokens[index], tokens[index + 1], before);
    if ok {
      NextChannel(line, tokens, start, n, k, before, PairAt(line, tokens, index), seen);
    } else {
      ChannelRefused(line, tokens, start, n, k, before, PairAt(line, tokens, index));
    }
  }

  predicate AllChannels(seen: ChannelsSeen) {
    seen.red.Some? && seen.green.Some? && seen.blue.Some?
  }

  lemma ChannelsAreColour(entries: seq<Member>, seen: ChannelsSeen)
    requires Accepted(entries, IsChannel) && seen == ChannelsIn(entries)
    ensures IsRgb(entries) <==> AllChannels(seen)
    ensures AllChannels(seen) ==> ColourOf(entries) == Colour(seen.red.value, seen.green.value, seen.blue.value)
  {
  }

  /** parse_rgb_parameters; `nextIndex` is the token after the object. */
  method ParseRgbParameters(line: string, tokens: seq<Token>, nextIndex: nat)
    returns (ok: bool, colour: Colour, index: nat)
    requires InLine(line, tokens) && 1 <= nextIndex <= |tokens|
    ensures var n := PairsBefore(tokens, nextIndex, tokens[nextIndex - 1].end);
            var entries := Pairs(line, tokens, nextIndex, n);
            && (ok <==> tokens[nextIndex - 1].kind == ObjectToken && IsRgb(entries))
            && (ok ==> colour == ColourOf(entries) && index == nextIndex + 2 * n)
  {
    var outer := tokens[nextIndex - 1];
    var seen := ChannelsSeen(None, None, None);
    index, colour := nextIndex, Colour(0, 0, 0);
    if outer.kind != ObjectToken {
      return false, colour, index;
    }
    ghost var n := PairsBefore(tokens, nextIndex, outer.end);
    ghost var k := 0;
    while index + 1 < |tokens| && tokens[index].start < outer.end
      invariant index == nextIndex + 2 * k && k <= n && PairsBefore(tokens, index, outer.end) == n - k
      invariant ChannelsRead(line, tokens, nextIndex, n, k, seen)
      decreases |tokens| - index
    {
      ok, seen := ParseChannel(line, tokens, nextIndex, n, k, index, seen);
      if !ok {
        return;
      }
      index := index + 2;
      k := k + 1;
    }
    ChannelsAreColour(Pairs(line, tokens, nextIndex, n), seen);
    if index > |tokens| || seen.red.None? || seen.green.None? || seen.blue.None? {
      return false, colour, index;
    }
    ok := true;
    colour := Colour(seen.red.value, seen.green.value, seen.blue.value);
  }

  // ---------------------------------------------------------------- the request

  datatype Seen = Seen(version: bool, kind: bool, commandId: bool, testUuid: bool, testType: bool, parameters: bool)

  function SeenIn(f: Fields): Seen {
    Seen(f.version.Some?, f.kind.Some?, f.commandId.Some?, f.testUuid.Some?, f.testType.Some?, f.colour.Some?)
  }

  function WithField(f: Fields, key: Key, value: Value): Fields {
    match key
    case VersionKey => f.(version := Some(value))
    case TypeKey => f.(kind := Some(value))
    case CommandIdKey => f.(commandId := Some(value))
    case TestUuidKey => f.(testUuid := Some(value))
    case TestTypeKey => f.(testType := Some(value))
    case ParametersKey => f.(colour := ParametersOf(Some(value)))
    case UnknownKey => f
  }

  /** The key is already among the fields. */
  predicate Repeated(f: Fields, key: Key) {
    match key
    case VersionKey => f.version.Some?
    case TypeKey => f.kind.Some?
    case CommandIdKey => f.commandId.Some?
    case TestUuidKey => f.testUuid.Some?
    case TestTypeKey => f.testType.Some?
    case ParametersKey => f.colour.Some?
    case UnknownKey => false
  }

  method ReadKey(line: string, token: Token) returns (key: Key)
    requires token.start <= token.end <= |line|
    ensures key == KeyOf(ValueAt(line, token))
  {
    var equal := TokenEquals(line, token, "protocol_version");
    if equal { return VersionKey; }
    equal := TokenEquals(line, token, "type");
    if equal { return TypeKey; }
    equal := TokenEquals(line, token, "command_id");
    if equal { return CommandIdKey; }
    equal := TokenEquals(line, token, "test_uuid");
    if equal { return TestUuidKey; }
    equal := TokenEquals(line, token, "test_type");
    if equal { return TestTypeKey; }
    equal := TokenEquals(line, token, "parameters");
    key := if equal then ParametersKey else UnknownKey;
  }

  /** The fields after one more member, None if the parser refuses it. */
  function Taken(f: Fields, m: Member): Option<Fields> {
    var key := KeyOf(m.key);
    if IsFieldValue(key, m.value) && !Repeated(f, key) then Some(WithField(f, key, m.value)) else None
  }

  // The same three functions on what the parser stores: the request and the seen flags.

  predicate AlreadySeen(seen: Seen, key: Key) {
    match key
    case VersionKey => seen.version
    case TypeKey => seen.kind
    case CommandIdKey => seen.commandId
    case TestUuidKey => seen.testUuid
    case TestTypeKey => seen.testType
    case ParametersKey => seen.parameters
    case UnknownKey => false
  }

  function SeenWith(seen: Seen, key: Key): Seen {
    match key
    case VersionKey => seen.(version := true)
    case TypeKey => seen.(kind := true)
    case CommandIdKey => seen.(commandId := true)
    case TestUuidKey => seen.(testUuid := true)
    case TestTypeKey => seen.(testType := true)
    case ParametersKey => seen.(parameters := true)
    case UnknownKey => seen
  }

  function RequestWith(r: Request, key: Key, value: Value): Request {
    match key
    case VersionKey => r
    case TypeKey => r.(kind := KindOf(Some(value)))
    case CommandIdKey => r.(commandId := NumberOf(Some(value)))
    case TestUuidKey => r.(testUuid := TextOf(Some(value)))
    case TestTypeKey => r.(testType := TextOf(Some(value)))
    case ParametersKey => r.(colour := ParametersOf(Some(value)))
    case UnknownKey => r
  }

  lemma FieldStored(f: Fields, key: Key, value: Value)
    ensures Repeated(f, key) == AlreadySeen(SeenIn(f), key)
    ensures SeenIn(WithField(f, key, value)) == SeenWith(SeenIn(f), key)
    ensures RequestOf(WithField(f, key, value)) == RequestWith(RequestOf(f), key, value)
  {
  }

  /** The body of the field loop. */
  method ParseField(line: string, tokens: seq<Token>, index: nat, ghost f: Fields, given: Request, before: Seen)
    returns (ok: bool, request: Request, seen: Seen, next: nat, ghost g: Fields)
    requires InLine(line, tokens) && index + 1 < |tokens|
    requires given == RequestOf(f) && before == SeenIn(f)
    ensures Taken(f, MemberAt(line, tokens, index)) == if ok then Some(g) else None
    ensures ok ==> request == RequestOf(g) && seen == SeenIn(g) && next == index + 2 + 2 * EntryCount(tokens, index)
  {
    var key := ReadKey(line, tokens[index]);
    ghost var value := MemberAt(line, tokens, index).value;
    g := WithField(f, key, value);
    FieldStored(f, key, value);
    if key == ParametersKey {
      ok, request, seen, next := ParseParameters(line, tokens, index, given, before);
    } else {
      ok, request, seen := ParseValue(line, tokens, index, key, given, before);
      next := index + 2;
      OneToken(line, tokens, index);
    }
  }

  /** An accepted plain value is one token. */
  lemma OneToken(line: string, tokens: seq<Token>, index: nat)
    requires InLine(line, tokens) && index + 1 < |tokens|
    ensures !MemberAt(line, tokens, index).value.Members? ==> EntryCount(tokens, index) == 0
  {
  }

  /** The branch of the field loop for the colour object. */
  method ParseParameters(line: string, tokens: seq<Token>, index: nat, given: Request, before: Seen)
    returns (ok: bool, request: Request, seen: Seen, next: nat)
    requires InLine(line, tokens) && index + 1 < |tokens|
    ensures var value := MemberAt(line, tokens, index).value;
            && (ok <==> IsFieldValue(ParametersKey, value) && !before.parameters)
            && (ok ==> request == RequestWith(given, ParametersKey, value) && seen == SeenWith(before, ParametersKey))
            && (ok ==> next == index + 2 + 2 * EntryCount(tokens, index))
  {
    var colour;
    ok, colour, next := ParseRgbParameters(line, tokens, index + 2);
    ok := ok && !before.parameters;
    request, seen := given.(colour := Some(colour)), before.(parameters := true);
  }

  /** Under any other key an object is refused, so the value is what its token says. */
  lemma PlainMember(line: string, tokens: seq<Token>, index: nat, key: Key)
    requires InLine(line, tokens) && index + 1 < |tokens| && key != ParametersKey
    ensures var value, plain := MemberAt(line, tokens, index).value, ValueAt(line, tokens[index + 1]);
            && (IsFieldValue(key, value) <==> IsFieldValue(key, plain))
            && (IsFieldValue(key, value) ==> value == plain && !value.Members?)
  {
  }

  /** The branch of the field loop for any other `key`, over the value token `index + 1`. */
  method ParseValue(line: string, tokens: seq<Token>, index: nat, key: Key, given: Request, before: Seen)
    returns (ok: bool, request: Request, seen: Seen)
    requires InLine(line, tokens) && index + 1 < |tokens| && key != ParametersKey
    ensures var value := MemberAt(line, tokens, index).value;
            && (ok <==> IsFieldValue(key, value) && !AlreadySeen(before, key))
            && (ok ==> request == RequestWith(given, key, value) && seen == SeenWith(before, key) && !value.Members?)
  {
    var value := tokens[index + 1];
    PlainMember(line, tokens, index, key);
    ok, request := StoreValue(line, value, key, given);
    ok, seen := ok && !AlreadySeen(before, key), SeenWith(before, key);
  }

  /** What the value token stores under `key`. */
  method StoreValue(line: string, token: Token, key: Key, given: Request) returns (ok: bool, request: Request)
    requires token.start <= token.end <= |line| && key != ParametersKey
    ensures ok <==> IsFieldValue(key, ValueAt(line, token))
    ensures ok ==> request == RequestWith(given, key, ValueAt(line, token))
  {
    ok, request := false, given;
    match key
    case VersionKey =>
      var version;
      ok, version := ParsePositiveUint32(line, token);
      ok := ok && version == PROTOCOL_VERSION;
    case TypeKey =>
      ok := token.kind == StringToken;
      if ok {
        request := given.(kind := KindNamed(line[token.start..token.end]));
      }
    case CommandIdKey =>
      var commandId;
      ok, commandId := ParsePositiveUint32(line, token);
      request := given.(commandId := commandId);
    case TestUuidKey =>
      var uuid;
      ok, uuid := CopyTestUuid(line, token);
      request := given.(testUuid := uuid);
    case TestTypeKey =>
      var testType;
      ok, testType := CopyTestType(line, token);
      request := given.(testType := testType);
    case UnknownKey =>
  }

  /** A member's value is found under its own key and under no other. */
  lemma FieldsSnoc(prefix: seq<Member>, m: Member)
    ensures FieldsOf(prefix + [m]) == WithField(FieldsOf(prefix), KeyOf(m.key), m.value)
  {
    FindSnoc(prefix, m, "protocol_version");
    FindSnoc(prefix, m, "type");
    FindSnoc(prefix, m, "command_id");
    FindSnoc(prefix, m, "test_uuid");
    FindSnoc(prefix, m, "test_type");
    FindSnoc(prefix, m, "parameters");
  }

  lemma RepeatedIsHas(prefix: seq<Member>, m: Member)
    requires KeyOf(m.key) != UnknownKey
    ensures m.key.Text? && (Repeated(FieldsOf(prefix), KeyOf(m.key)) <==> Has(prefix, m.key.text))
  {
  }

  lemma AcceptedField(prefix: seq<Member>, m: Member)
    requires Accepted(prefix, IsField)
    ensures Accepted(prefix + [m], IsField) <==> Taken(FieldsOf(prefix), m).Some?
    ensures Accepted(prefix + [m], IsField) ==> Taken(FieldsOf(prefix), m) == Some(FieldsOf(prefix + [m]))
  {
    AcceptedSnoc(prefix, m, IsField);
    if KeyOf(m.key) != UnknownKey {
      RepeatedIsHas(prefix, m);
      FieldsSnoc(prefix, m);
    }
  }

  lemma AcceptedStart(prefix: seq<Member>, doc: seq<Member>)
    requires prefix <= doc && Accepted(doc, IsField)
    ensures Accepted(prefix, IsField)
  {
    AcceptedPrefix(doc, IsField, |prefix|);
    assert doc[..|prefix|] == prefix;
  }

  lemma MemberMoves(prefix: seq<Member>, m: Member, rest: seq<Member>)
    ensures prefix + ([m] + rest) == (prefix + [m]) + rest && prefix + [m] <= prefix + ([m] + rest)
  {
  }

  /** The next member moves from the rest of the document to the members taken. */
  lemma NextMember(line: string, tokens: seq<Token>, index: nat, left: nat, prefix: seq<Member>)
    returns (rest: seq<Member>)
    requires InLine(line, tokens) && index + 2 * left == |tokens| && left > 0
    ensures var m, n := MemberAt(line, tokens, index), EntryCount(tokens, index);
            && n < left && rest == DocumentFrom(line, tokens, index + 2 + 2 * n, left - 1 - n)
            && prefix + DocumentFrom(line, tokens, index, left) == (prefix + [m]) + rest
  {
    var m, n := MemberAt(line, tokens, index), EntryCount(tokens, index);
    DocumentStep(line, tokens, index, left, n);
    rest := DocumentFrom(line, tokens, index + 2 + 2 * n, left - 1 - n);
    MemberMoves(prefix, m, rest);
  }

  const NOTHING_SEEN: Seen := Seen(false, false, false, false, false, false)
  const EMPTY_REQUEST: Request := Request(Invalid, 0, "", "", None)

  /** The members before token `index` have been taken, and `left` pairs remain. */
  predicate FieldsRead(line: string, tokens: seq<Token>, doc: seq<Member>, index: nat, left: nat, prefix: seq<Member>,
                       request: Request, seen: Seen)
    requires InLine(line, tokens)
  {
    && index + 2 * left == |tokens|
    && doc == prefix + DocumentFrom(line, tokens, index, left)
    && Accepted(prefix, IsField) && request == RequestOf(FieldsOf(prefix)) && seen == SeenIn(FieldsOf(prefix))
  }

  lemma NothingRead(line: string, tokens: seq<Token>)
    requires InLine(line, tokens) && |tokens| % 2 == 1
    ensures FieldsRead(line, tokens, Document(line, tokens), 1, |tokens| / 2, [], EMPTY_REQUEST, NOTHING_SEEN)
  {
  }

  lemma NextField(line: string, tokens: seq<Token>, doc: seq<Member>, index: nat, left: nat, prefix: seq<Member>,
                  f: Fields, g: Fields, next: nat, rest: nat)
    requires InLine(line, tokens) && left > 0 && f == FieldsOf(prefix)
    requires FieldsRead(line, tokens, doc, index, left, prefix, RequestOf(f), SeenIn(f))
    requires Taken(f, MemberAt(line, tokens, index)) == Some(g)
    requires next == index + 2 + 2 * EntryCount(tokens, index) && rest == left - 1 - EntryCount(tokens, index)
    ensures FieldsRead(line, tokens, doc, next, rest, prefix + [MemberAt(line, tokens, index)], RequestOf(g), SeenIn(g))
  {
    var m := MemberAt(line, tokens, index);
    var after := NextMember(line, tokens, index, left, prefix);
    AcceptedField(prefix, m);
  }

  lemma FieldRefused(line: string, tokens: seq<Token>, doc: seq<Member>, index: nat, left: nat, prefix: seq<Member>,
                     f: Fields)
    requires InLine(line, tokens) && left > 0 && f == FieldsOf(prefix)
    requires FieldsRead(line, tokens, doc, index, left, prefix, RequestOf(f), SeenIn(f))
    requires Taken(f, MemberAt(line, tokens, index)).None?
    ensures !Accepted(doc, IsField)
  {
    var m := MemberAt(line, tokens, index);
    var after := NextMember(line, tokens, index, left, prefix);
    AcceptedField(prefix, m);
    if Accepted((prefix + [m]) + after, IsField) {
      AcceptedStart(prefix + [m], (prefix + [m]) + after);
    }
  }

  lemma FewerLeft(line: string, tokens: seq<Token>, index: nat, left: nat)
    requires InLine(line, tokens) && index + 2 * left == |tokens| && left > 0
    ensures EntryCount(tokens, index) < left
  {
    DocumentStep(line, tokens, index, left, EntryCount(tokens, index));
  }

  method TakeField(line: string, tokens: seq<Token>, ghost doc: seq<Member>, index: nat, ghost left: nat,
                   ghost prefix: seq<Member>, given: Request, before: Seen)
    returns (ok: bool, request: Request, seen: Seen, next: nat, ghost rest: nat, ghost taken: seq<Member>)
    requires InLine(line, tokens) && left > 0
    requires FieldsRead(line, tokens, doc, index, left, prefix, given, before)
    ensures ok ==> index < next && FieldsRead(line, tokens, doc, next, rest, taken, request, seen)
    ensures !ok ==> !Accepted(doc, IsField)
  {
    ghost var f, g := FieldsOf(prefix), FieldsOf(prefix);
    FewerLeft(line, tokens, index, left);
    rest, taken := left - 1 - EntryCount(tokens, index), prefix + [MemberAt(line, tokens, index)];
    ok, request, seen, next, g := ParseField(line, tokens, index, f, given, before);
    if ok {
      NextField(line, tokens, doc, index, left, prefix, f, g, next, rest);
    } else {
      FieldRefused(line, tokens, doc, index, left, prefix, f);
    }
  }

  /** The field loop, over any odd number of tokens. */
  method ParseFields(line: string, tokens: seq<Token>) returns (ok: bool, request: Request, seen: Seen)
    requires InLine(line, tokens) && |tokens| % 2 == 1
    ensures var doc := Document(line, tokens);
            && (ok <==> Accepted(doc, IsField))
            && (ok ==> request == RequestOf(FieldsOf(doc)) && seen == SeenIn(FieldsOf(doc)))
  {
    request, seen := EMPTY_REQUEST, NOTHING_SEEN;
    var index := 1;
    ghost var left: nat, prefix: seq<Member> := |tokens| / 2, [];
    NothingRead(line, tokens);
    while index < |tokens|
      invariant index + 2 * left == |tokens|
      invariant FieldsRead(line, tokens, Document(line, tokens), index, left, prefix, request, seen)
    {
      ok, request, seen, index, left, prefix :=
        TakeField(line, tokens, Document(line, tokens), index, left, prefix, request, seen);
      if !ok {
        return;
      }
    }
    assert Document(line, tokens) == prefix;
    ok := true;
  }

  /** The token counts the tokenizer's result is checked against. */
  predicate AcceptableCount(count: int) {
    count == 7 || count == 9 || count == 17
  }

  /** json_protocol_parse_request: `tokenCount` is the tokenizer's result, negative on error. */
  method ParseRequest(line: string, tokenCount: int, tokens: seq<Token>) returns (ok: bool, request: Request)
    requires tokenCount >= 0 ==> |tokens| == tokenCount
    requires InLine(line, tokens)
    ensures ok <==> tokenCount > 0 && tokenCount % 2 == 1 && tokens[0].kind == ObjectToken &&
                    Parsed(Document(line, tokens)).Some?
    ensures ok ==> Parsed(Document(line, tokens)) == Some(request)
  {
    request := EMPTY_REQUEST;
    ghost var odd := tokenCount > 0 && tokenCount % 2 == 1;
    if odd {
      DocumentTokens(line, tokens, 1, |tokens| / 2);
      OnlyThreeCounts(Document(line, tokens));
    }
    if (tokenCount != 7 && tokenCount != 9 && tokenCount != 17) || tokens[0].kind != ObjectToken {
      return false, request;
    }
    var seen;
    ok, request, seen := ParseFields(line, tokens);
    if !ok {
      return;
    }
    if !seen.version || !seen.kind || !seen.commandId {
      return false, request;
    }
    if request.kind == StartTest {
      ok := tokenCount == 9 && seen.testUuid && !seen.testType && !seen.parameters;
    } else if request.kind == RunComponentTest {
      var isRgbLed := request.testType == "rgb_led";
      ok := seen.testType && !seen.testUuid &&
        ((isRgbLed && tokenCount == 17 && seen.parameters) || (!isRgbLed && tokenCount == 9 && !seen.parameters));
    } else {
      ok := request.kind == StopComponentTest && tokenCount == 7 && !seen.testUuid && !seen.testType &&
        !seen.parameters;
    }
  }

  lemma OnlyThreeCounts(doc: seq<Member>)
    ensures Parsed(doc).Some? ==> AcceptableCount(TokenCount(doc))
  {
  }

  /** Whatever is accepted is one of the three requests; an unsupported type never comes out. */
  lemma NeverUnsupported(doc: seq<Member>)
    ensures Parsed(doc).Some? ==> Parsed(doc).value.kind != Unsupported && Parsed(doc).value.kind != Invalid
    ensures Parsed(doc).Some? ==> S.Says(doc, Parsed(doc).value) && 0 < Parsed(doc).value.commandId <= UINT32_MAX
  {
    if Parsed(doc).Some? {
      S.ParsedIffSays(doc, Parsed(doc).value);
    }
  }
}
