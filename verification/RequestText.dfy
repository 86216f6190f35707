/** Compact JSON text and its tokens: the layout json.dumps gives the host's requests, and the
    document the parser finds in it. */
module RequestText {
  import opened RequestDocuments
  import opened RequestParser

  /** A piece of text with the tokens in it, positions counted from the start of the line. */
  datatype Laid = Laid(text: string, tokens: seq<Token>)

  predicate Plain(v: Value) {
    v.Text? || v.Number?
  }

  predicate PlainPair(m: Member) {
    m.key.Text? && Plain(m.value)
  }

  predicate Layable(m: Member) {
    && m.key.Text?
    && (Plain(m.value) ||
        (m.value.Members? && forall i :: 0 <= i < |m.value.entries| ==> PlainPair(m.value.entries[i])))
  }

  function LayValue(v: Value, at: nat): Laid
    requires Plain(v)
  {
    match v
    case Text(t) => Laid("\"" + t + "\"", [Token(StringToken, at + 1, at + 1 + |t|)])
    case Number(t) => Laid(t, [Token(PrimitiveToken, at, at + |t|)])
  }

  function LayPair(m: Member, at: nat): Laid
    requires PlainPair(m)
  {
    var key := LayValue(m.key, at);
    var value := LayValue(m.value, at + |key.text| + 1);
    Laid(key.text + ":" + value.text, key.tokens + value.tokens)
  }

  function LayEntries(entries: seq<Member>, at: nat): (laid: Laid)
    requires forall i :: 0 <= i < |entries| ==> PlainPair(entries[i])
    ensures |laid.tokens| == 2 * |entries|
    decreases |entries|
  {
    if entries == [] then Laid("", [])
    else
      var first := LayPair(entries[0], at);
      if |entries| == 1 then first
      else
        var rest := LayEntries(entries[1..], at + |first.text| + 1);
        Laid(first.text + "," + rest.text, first.tokens + rest.tokens)
  }

  function LayMember(m: Member, at: nat): (laid: Laid)
    requires Layable(m)
    ensures |laid.tokens| == 2 + (if m.value.Members? then 2 * |m.value.entries| else 0)
  {
    if Plain(m.value) then LayPair(m, at)
    else
      var key := LayValue(m.key, at);
      var open := at + |key.text| + 1;
      var inner := LayEntries(m.value.entries, open + 1);
      Laid(key.text + ":{" + inner.text + "}",
           key.tokens + [Token(ObjectToken, open, open + |inner.text| + 2)] + inner.tokens)
  }

  function LayMembers(doc: seq<Member>, at: nat): (laid: Laid)
    requires forall i :: 0 <= i < |doc| ==> Layable(doc[i])
    ensures doc != [] ==> laid.tokens != [] && laid.tokens[0].start == at + 1
    decreases |doc|
  {
    if doc == [] then Laid("", [])
    else
      var first := LayMember(doc[0], at);
      if |doc| == 1 then first
      else
        var rest := LayMembers(doc[1..], at + |first.text| + 1);
        Laid(first.text + "," + rest.text, first.tokens + rest.tokens)
  }

  /** The whole request. */
  function LayDocument(doc: seq<Member>): Laid
    requires forall i :: 0 <= i < |doc| ==> Layable(doc[i])
  {
    var inner := LayMembers(doc, 1);
    Laid("{" + inner.text + "}", [Token(ObjectToken, 0, |inner.text| + 2)] + inner.tokens)
  }

  // ---------------------------------------------------------------- positions

  predicate Holds(line: string, at: nat, text: string) {
    at + |text| <= |line| && line[at..at + |text|] == text
  }

  lemma HoldsPart(line: string, at: nat, a: string, b: string)
    requires Holds(line, at, a + b)
    ensures Holds(line, at, a) && Holds(line, at + |a|, b)
  {
    assert line[at..at + |a|] == line[at..at + |a + b|][..|a|];
    assert line[at + |a|..at + |a| + |b|] == line[at..at + |a + b|][|a|..];
  }

  lemma ValueReads(line: string, v: Value, at: nat)
    requires Plain(v) && Holds(line, at, LayValue(v, at).text)
    ensures InLine(line, LayValue(v, at).tokens)
    ensures ValueAt(line, LayValue(v, at).tokens[0]) == v
  {
    if v.Text? {
      HoldsPart(line, at, "\"" + v.text, "\"");
      HoldsPart(line, at, "\"", v.text);
    }
  }

  lemma PairReads(line: string, m: Member, at: nat)
    requires PlainPair(m) && Holds(line, at, LayPair(m, at).text)
    ensures InLine(line, LayPair(m, at).tokens) && |LayPair(m, at).tokens| == 2
    ensures Member(ValueAt(line, LayPair(m, at).tokens[0]), ValueAt(line, LayPair(m, at).tokens[1])) == m
    ensures LayPair(m, at).tokens[0].start < at + |LayPair(m, at).text|
    ensures LayPair(m, at).tokens[1].kind != ObjectToken
  {
    var key := LayValue(m.key, at);
    var value := LayValue(m.value, at + |key.text| + 1);
    HoldsPart(line, at, key.text + ":", value.text);
    HoldsPart(line, at, key.text, ":");
    ValueReads(line, m.key, at);
    ValueReads(line, m.value, at + |key.text| + 1);
  }

  /** A key token and a value token that read as `m`, the key starting before `limit`. */
  predicate ReadsAs(line: string, key: Token, value: Token, m: Member, limit: nat) {
    && key.start <= key.end <= |line| && value.start <= value.end <= |line|
    && Member(ValueAt(line, key), ValueAt(line, value)) == m
    && key.start < limit
  }

  predicate EntriesRead(line: string, tokens: seq<Token>, entries: seq<Member>, limit: nat)
    decreases |entries|
  {
    if entries == [] then tokens == []
    else
      && |tokens| >= 2 && ReadsAs(line, tokens[0], tokens[1], entries[0], limit)
      && EntriesRead(line, tokens[2..], entries[1..], limit)
  }

  lemma EntriesReadCons(line: string, laid: seq<Token>, tokens: seq<Token>, entries: seq<Member>, limit: nat)
    requires |laid| >= 2 && laid[2..] == tokens
    requires entries != [] && ReadsAs(line, laid[0], laid[1], entries[0], limit) &&
             EntriesRead(line, tokens, entries[1..], limit)
    ensures EntriesRead(line, laid, entries, limit)
  {
  }

  lemma {:induction false} EntriesCounted(line: string, tokens: seq<Token>, entries: seq<Member>, limit: nat)
    requires EntriesRead(line, tokens, entries, limit)
    ensures |tokens| == 2 * |entries|
    decreases |entries|
  {
    if entries != [] {
      EntriesCounted(line, tokens[2..], entries[1..], limit);
    }
  }

  lemma {:induction false} EntriesInLine(line: string, tokens: seq<Token>, entries: seq<Member>, limit: nat)
    requires EntriesRead(line, tokens, entries, limit)
    ensures InLine(line, tokens)
    decreases |entries|
  {
    if entries != [] {
      EntriesInLine(line, tokens[2..], entries[1..], limit);
      forall i | 0 <= i < |tokens| ensures tokens[i].start <= tokens[i].end <= |line| {
        assert i >= 2 ==> tokens[i] == tokens[2..][i - 2];
      }
    }
  }

  lemma HoldsAround(line: string, at: nat, first: string, rest: string)
    requires Holds(line, at, first + "," + rest)
    ensures Holds(line, at, first) && Holds(line, at + |first| + 1, rest)
  {
    HoldsPart(line, at, first + ",", rest);
    HoldsPart(line, at, first, ",");
  }

  lemma PairReadsAs(line: string, m: Member, at: nat, pair: Laid, limit: nat)
    requires PlainPair(m) && pair == LayPair(m, at) && Holds(line, at, pair.text) && at + |pair.text| <= limit
    ensures |pair.tokens| == 2 && ReadsAs(line, pair.tokens[0], pair.tokens[1], m, limit)
  {
    PairReads(line, m, at);
  }

  predicate PlainPairs(entries: seq<Member>) {
    forall i :: 0 <= i < |entries| ==> PlainPair(entries[i])
  }

  /** The layout of two or more entries is the first, a comma, the rest. */
  lemma LaidEntries(entries: seq<Member>, at: nat, laid: Laid) returns (first: Laid, next: nat, rest: Laid)
    requires PlainPairs(entries) && |entries| >= 2 && laid == LayEntries(entries, at)
    ensures PlainPairs(entries[1..]) && first == LayPair(entries[0], at) && |first.tokens| == 2
    ensures next == at + |first.text| + 1 && rest == LayEntries(entries[1..], next)
    ensures laid.text == first.text + "," + rest.text && laid.tokens == first.tokens + rest.tokens
  {
    first := LayPair(entries[0], at);
    next := at + |first.text| + 1;
    rest := LayEntries(entries[1..], next);
  }

  /** The entries are where the layout put them, inside the object. */
  lemma {:induction false} EntriesReadBack(line: string, entries: seq<Member>, at: nat, laid: Laid, limit: nat)
    requires PlainPairs(entries) && laid == LayEntries(entries, at)
    requires Holds(line, at, laid.text) && at + |laid.text| <= limit
    ensures EntriesRead(line, laid.tokens, entries, limit)
    decreases |entries|
  {
    if |entries| == 1 {
      PairReadsAs(line, entries[0], at, laid, limit);
      EntriesReadCons(line, laid.tokens, [], entries, limit);
    } else if entries != [] {
      var first, next, rest := LaidEntries(entries, at, laid);
      HoldsAround(line, at, first.text, rest.text);
      PairReadsAs(line, entries[0], at, first, limit);
      EntriesReadBack(line, entries[1..], next, rest, limit);
      EntriesReadCons(line, laid.tokens, rest.tokens, entries, limit);
    }
  }

  // ---------------------------------------------------------------- the parser's view

  lemma {:induction false} PairsForward(line: string, tokens: seq<Token>, index: nat, n: nat)
    requires InLine(line, tokens) && n > 0 && index + 2 * n <= |tokens|
    ensures Pairs(line, tokens, index, n) == [PairAt(line, tokens, index)] + Pairs(line, tokens, index + 2, n - 1)
    decreases n
  {
    if n > 1 {
      PairsForward(line, tokens, index, n - 1);
    }
  }

  /** The first entry is the pair at `index`. */
  lemma FirstEntry(line: string, tokens: seq<Token>, index: nat, laid: seq<Token>, entries: seq<Member>, end: nat)
    requires InLine(line, tokens) && EntriesRead(line, laid, entries, end) && entries != []
    requires index + |laid| <= |tokens| && tokens[index..index + |laid|] == laid
    ensures |laid| >= 2 && PairAt(line, tokens, index) == entries[0] && tokens[index].start < end
    ensures tokens[index + 2..index + |laid|] == laid[2..]
  {
  }

  lemma PairsBeforeStep(tokens: seq<Token>, index: nat, end: nat)
    requires index + 1 < |tokens| && tokens[index].start < end
    ensures PairsBefore(tokens, index, end) == 1 + PairsBefore(tokens, index + 2, end)
  {
  }

  lemma PairsBeforeEnd(tokens: seq<Token>, index: nat, end: nat)
    requires index >= |tokens| || tokens[index].start >= end
    ensures PairsBefore(tokens, index, end) == 0
  {
  }

  /** Entry tokens at `index`, followed by nothing or by a token past the object. */
  lemma {:induction false} EntriesArePairs(line: string, tokens: seq<Token>, index: nat, laid: seq<Token>,
                                           entries: seq<Member>, end: nat)
    requires InLine(line, tokens) && EntriesRead(line, laid, entries, end)
    requires index + |laid| <= |tokens| && tokens[index..index + |laid|] == laid
    requires index + |laid| == |tokens| || tokens[index + |laid|].start >= end
    ensures PairsBefore(tokens, index, end) == |entries|
    ensures Pairs(line, tokens, index, |entries|) == entries
    decreases |entries|
  {
    if entries == [] {
      PairsBeforeEnd(tokens, index, end);
    } else {
      FirstEntry(line, tokens, index, laid, entries, end);
      EntriesArePairs(line, tokens, index + 2, laid[2..], entries[1..], end);
      PairsBeforeStep(tokens, index, end);
      PairsForward(line, tokens, index, |entries|);
      assert entries == [entries[0]] + entries[1..];
    }
  }

  function EntriesOf(m: Member): seq<Member> {
    if m.value.Members? then m.value.entries else []
  }

  predicate TokenInLine(line: string, token: Token) {
    token.start <= token.end <= |line|
  }

  /** The tokens of one member: its key, its value and, for an object, the entries. */
  predicate TokensRead(line: string, laid: seq<Token>, m: Member) {
    && |laid| == 2 + 2 * |EntriesOf(m)| && TokenInLine(line, laid[0]) && TokenInLine(line, laid[1])
    && ValueAt(line, laid[0]) == m.key
    && (if m.value.Members?
        then laid[1].kind == ObjectToken && EntriesRead(line, laid[2..], m.value.entries, laid[1].end)
        else laid[1].kind != ObjectToken && ValueAt(line, laid[1]) == m.value)
  }

  /** The tokens of successive members, each starting past the object before it. */
  predicate AllTokensRead(line: string, laid: seq<Token>, doc: seq<Member>)
    decreases |doc|
  {
    if doc == [] then laid == []
    else
      var n := 2 + 2 * |EntriesOf(doc[0])|;
      && n <= |laid| && TokensRead(line, laid[..n], doc[0])
      && (n < |laid| && laid[1].kind == ObjectToken ==> laid[1].end <= laid[n].start)
      && AllTokensRead(line, laid[n..], doc[1..])
  }

  /** Within the parser's token array the member is found at `index`. */
  lemma MemberReads(line: string, tokens: seq<Token>, index: nat, laid: seq<Token>, m: Member)
    requires InLine(line, tokens) && TokensRead(line, laid, m)
    requires index + |laid| <= |tokens| && tokens[index..index + |laid|] == laid
    requires index + |laid| < |tokens| && laid[1].kind == ObjectToken ==> laid[1].end <= tokens[index + |laid|].start
    ensures MemberAt(line, tokens, index) == m && EntryCount(tokens, index) == |EntriesOf(m)|
  {
    assert tokens[index] == laid[0] && tokens[index + 1] == laid[1];
    if m.value.Members? {
      forall i | 0 <= i < |laid| - 2 ensures tokens[index + 2 + i] == laid[2..][i] {
        assert tokens[index..index + |laid|][2 + i] == laid[2 + i];
      }
      assert tokens[index + 2..index + 2 + |laid[2..]|] == laid[2..];
      EntriesArePairs(line, tokens, index + 2, laid[2..], m.value.entries, laid[1].end);
    }
  }

  /** The first member's tokens, and the rest, within the parser's array. */
  lemma HeadTokens(line: string, tokens: seq<Token>, index: nat, doc: seq<Member>) returns (laid: seq<Token>, next: nat)
    requires InLine(line, tokens) && index <= |tokens| && doc != [] && AllTokensRead(line, tokens[index..], doc)
    ensures index + |laid| == next <= |tokens| && tokens[index..next] == laid && |laid| == 2 + 2 * |EntriesOf(doc[0])|
    ensures TokensRead(line, laid, doc[0])
    ensures next < |tokens| && laid[1].kind == ObjectToken ==> laid[1].end <= tokens[next].start
    ensures AllTokensRead(line, tokens[next..], doc[1..])
  {
    var tail, n := tokens[index..], 2 + 2 * |EntriesOf(doc[0])|;
    laid, next := tail[..n], index + n;
    assert tail[n..] == tokens[next..];
    assert tokens[index..next] == laid;
  }

  lemma HeadStep(line: string, tokens: seq<Token>, index: nat, left: nat, m: Member, laid: seq<Token>, next: nat)
    returns (rest: nat)
    requires InLine(line, tokens) && index + 2 * left == |tokens| && TokensRead(line, laid, m)
    requires index + |laid| == next <= |tokens| && tokens[index..next] == laid && |laid| == 2 + 2 * |EntriesOf(m)|
    requires next < |tokens| && laid[1].kind == ObjectToken ==> laid[1].end <= tokens[next].start
    ensures next + 2 * rest == |tokens|
    ensures DocumentFrom(line, tokens, index, left) == [m] + DocumentFrom(line, tokens, next, rest)
  {
    var n := |EntriesOf(m)|;
    MemberReads(line, tokens, index, laid, m);
    DocumentStep(line, tokens, index, left, n);
    rest := left - 1 - n;
    assert next == index + 2 + 2 * n;
  }

  lemma HeadMember(line: string, tokens: seq<Token>, index: nat, left: nat, doc: seq<Member>)
    returns (next: nat, rest: nat)
    requires InLine(line, tokens) && index + 2 * left == |tokens| && doc != [] &&
             AllTokensRead(line, tokens[index..], doc)
    ensures next + 2 * rest == |tokens| && AllTokensRead(line, tokens[next..], doc[1..])
    ensures DocumentFrom(line, tokens, index, left) == [doc[0]] + DocumentFrom(line, tokens, next, rest)
  {
    var laid;
    laid, next := HeadTokens(line, tokens, index, doc);
    rest := HeadStep(line, tokens, index, left, doc[0], laid, next);
  }

  lemma {:induction false} MembersRead(line: string, tokens: seq<Token>, index: nat, left: nat, doc: seq<Member>)
    requires InLine(line, tokens) && index + 2 * left == |tokens| && AllTokensRead(line, tokens[index..], doc)
    ensures DocumentFrom(line, tokens, index, left) == doc
    decreases |doc|
  {
    if doc == [] {
      assert |tokens[index..]| == |tokens| - index;
    } else {
      var next, rest := HeadMember(line, tokens, index, left, doc);
      MembersRead(line, tokens, next, rest, doc[1..]);
      assert doc == [doc[0]] + doc[1..];
    }
  }

  lemma MemberTokensInLine(line: string, laid: seq<Token>, m: Member)
    requires TokensRead(line, laid, m)
    ensures InLine(line, laid)
  {
    if m.value.Members? {
      EntriesInLine(line, laid[2..], m.value.entries, laid[1].end);
      forall i | 0 <= i < |laid| ensures TokenInLine(line, laid[i]) {
        assert i >= 2 ==> laid[i] == laid[2..][i - 2];
      }
    }
  }

  lemma JoinInLine(line: string, laid: seq<Token>, n: nat)
    requires n <= |laid| && InLine(line, laid[..n]) && InLine(line, laid[n..])
    ensures InLine(line, laid)
  {
  }

  lemma {:induction false} TokensInLine(line: string, laid: seq<Token>, doc: seq<Member>)
    requires AllTokensRead(line, laid, doc)
    ensures InLine(line, laid)
    decreases |doc|
  {
    if doc != [] {
      var n := 2 + 2 * |EntriesOf(doc[0])|;
      TokensInLine(line, laid[n..], doc[1..]);
      MemberTokensInLine(line, laid[..n], doc[0]);
      JoinInLine(line, laid, n);
    }
  }

  lemma {:induction false} TokensCounted(line: string, laid: seq<Token>, doc: seq<Member>)
    requires AllTokensRead(line, laid, doc)
    ensures |laid| + 1 == TokenCount(doc)
    decreases |doc|
  {
    if doc != [] {
      var n := 2 + 2 * |EntriesOf(doc[0])|;
      TokensCounted(line, laid[n..], doc[1..]);
      TokenCountAppend([doc[0]], doc[1..]);
      assert doc == [doc[0]] + doc[1..] && [doc[0]][..0] == [];
    }
  }

  // ---------------------------------------------------------------- the layout is read back

  lemma ObjectParts(line: string, m: Member, at: nat, laid: Laid) returns (key: Token, open: nat, inner: Laid)
    requires Layable(m) && m.value.Members? && laid == LayMember(m, at) && Holds(line, at, laid.text)
    ensures TokenInLine(line, key) && ValueAt(line, key) == m.key
    ensures PlainPairs(m.value.entries) && inner == LayEntries(m.value.entries, open + 1)
    ensures Holds(line, open + 1, inner.text) && open + |inner.text| + 2 == at + |laid.text| <= |line|
    ensures laid.tokens == [key, Token(ObjectToken, open, open + |inner.text| + 2)] + inner.tokens
  {
    var keyLaid := LayValue(m.key, at);
    open := at + |keyLaid.text| + 1;
    inner := LayEntries(m.value.entries, open + 1);
    key := keyLaid.tokens[0];
    HoldsPart(line, at, keyLaid.text + ":{" + inner.text, "}");
    HoldsPart(line, at, keyLaid.text + ":{", inner.text);
    HoldsPart(line, at, keyLaid.text, ":{");
    ValueReads(line, m.key, at);
    assert keyLaid.tokens == [key];
  }

  lemma ObjectTokens(line: string, key: Token, outer: Token, inner: seq<Token>, m: Member)
    requires m.value.Members? && TokenInLine(line, key) && TokenInLine(line, outer)
    requires ValueAt(line, key) == m.key && outer.kind == ObjectToken
    requires EntriesRead(line, inner, m.value.entries, outer.end)
    ensures TokensRead(line, [key, outer] + inner, m)
  {
    EntriesCounted(line, inner, m.value.entries, outer.end);
    assert ([key, outer] + inner)[2..] == inner;
  }

  lemma ObjectRead(line: string, m: Member, tokens: seq<Token>, key: Token, open: nat, inner: Laid)
    requires m.value.Members? && TokenInLine(line, key) && ValueAt(line, key) == m.key
    requires PlainPairs(m.value.entries) && inner == LayEntries(m.value.entries, open + 1)
    requires Holds(line, open + 1, inner.text) && open + |inner.text| + 2 <= |line|
    requires tokens == [key, Token(ObjectToken, open, open + |inner.text| + 2)] + inner.tokens
    ensures TokensRead(line, tokens, m) && tokens[1].end == open + |inner.text| + 2
  {
    EntriesReadBack(line, m.value.entries, open + 1, inner, open + |inner.text| + 2);
    ObjectTokens(line, key, Token(ObjectToken, open, open + |inner.text| + 2), inner.tokens, m);
  }

  lemma ObjectLaid(line: string, m: Member, at: nat, laid: Laid)
    requires Layable(m) && m.value.Members? && laid == LayMember(m, at) && Holds(line, at, laid.text)
    ensures TokensRead(line, laid.tokens, m) && laid.tokens[1].end <= at + |laid.text|
  {
    var key, open, inner := ObjectParts(line, m, at, laid);
    ObjectRead(line, m, laid.tokens, key, open, inner);
  }

  lemma MemberLaid(line: string, m: Member, at: nat, laid: Laid)
    requires Layable(m) && laid == LayMember(m, at) && Holds(line, at, laid.text)
    ensures TokensRead(line, laid.tokens, m)
    ensures laid.tokens[1].kind == ObjectToken ==> laid.tokens[1].end <= at + |laid.text|
  {
    if Plain(m.value) {
      PairReads(line, m, at);
    } else {
      ObjectLaid(line, m, at, laid);
    }
  }

  lemma AllTokensReadCons(line: string, first: seq<Token>, rest: seq<Token>, doc: seq<Member>)
    requires doc != [] && TokensRead(line, first, doc[0]) && AllTokensRead(line, rest, doc[1..])
    requires rest != [] && first[1].kind == ObjectToken ==> first[1].end <= rest[0].start
    ensures AllTokensRead(line, first + rest, doc)
  {
  }

  predicate AllLayable(doc: seq<Member>) {
    forall i :: 0 <= i < |doc| ==> Layable(doc[i])
  }

  /** The layout of two or more members: the first, a comma, the rest. */
  lemma LaidMembers(doc: seq<Member>, at: nat, laid: Laid) returns (first: Laid, next: nat, rest: Laid)
    requires AllLayable(doc) && |doc| >= 2 && laid == LayMembers(doc, at)
    ensures AllLayable(doc[1..]) && first == LayMember(doc[0], at)
    ensures next == at + |first.text| + 1 && rest == LayMembers(doc[1..], next)
    ensures rest.tokens != [] && rest.tokens[0].start == next + 1
    ensures laid.text == first.text + "," + rest.text && laid.tokens == first.tokens + rest.tokens
  {
    first := LayMember(doc[0], at);
    next := at + |first.text| + 1;
    rest := LayMembers(doc[1..], next);
  }

  lemma LastLaid(line: string, doc: seq<Member>, at: nat, laid: Laid)
    requires AllLayable(doc) && |doc| == 1 && laid == LayMembers(doc, at) && Holds(line, at, laid.text)
    ensures AllTokensRead(line, laid.tokens, doc)
  {
    assert laid == LayMember(doc[0], at);
    MemberLaid(line, doc[0], at, laid);
    AllTokensReadCons(line, laid.tokens, [], doc);
    assert laid.tokens + [] == laid.tokens;
  }

  lemma MembersStep(line: string, doc: seq<Member>, at: nat, first: Laid, next: nat, rest: seq<Token>)
    requires doc != [] && Layable(doc[0]) && first == LayMember(doc[0], at) && Holds(line, at, first.text)
    requires next == at + |first.text| + 1 && rest != [] && rest[0].start == next + 1 &&
             AllTokensRead(line, rest, doc[1..])
    ensures AllTokensRead(line, first.tokens + rest, doc)
  {
    MemberLaid(line, doc[0], at, first);
    AllTokensReadCons(line, first.tokens, rest, doc);
  }

  lemma {:induction false} MembersLaid(line: string, doc: seq<Member>, at: nat, laid: Laid)
    requires AllLayable(doc) && laid == LayMembers(doc, at) && Holds(line, at, laid.text)
    ensures AllTokensRead(line, laid.tokens, doc)
    decreases |doc|
  {
    if |doc| == 1 {
      LastLaid(line, doc, at, laid);
    } else if doc != [] {
      var first, next, rest := LaidMembers(doc, at, laid);
      HoldsAround(line, at, first.text, rest.text);
      MembersLaid(line, doc[1..], next, rest);
      MembersStep(line, doc, at, first, next, rest.tokens);
    }
  }

  /** The tokens of a compact request spell out the request's own document. */
  lemma LayoutReadsBack(doc: seq<Member>)
    requires AllLayable(doc)
    ensures var laid := LayDocument(doc);
            && InLine(laid.text, laid.tokens) && |laid.tokens| == TokenCount(doc) && |laid.tokens| % 2 == 1
            && laid.tokens[0].kind == ObjectToken
            && Document(laid.text, laid.tokens) == doc
  {
    var laid, inner := LayDocument(doc), LayMembers(doc, 1);
    assert laid.text[1..1 + |inner.text|] == inner.text;
    MembersLaid(laid.text, doc, 1, inner);
    TokensInLine(laid.text, inner.tokens, doc);
    TokensCounted(laid.text, inner.tokens, doc);
    OddTokens(doc);
    assert laid.tokens[1..] == inner.tokens;
    assert InLine(laid.text, laid.tokens);
    MembersRead(laid.text, laid.tokens, 1, |laid.tokens| / 2, doc);
  }

  lemma {:induction false} OddTokens(doc: seq<Member>)
    ensures TokenCount(doc) % 2 == 1
  {
    if doc != [] {
      OddTokens(doc[..|doc| - 1]);
    }
  }
}

/** The host's request texts, tokenized, against the firmware's parser. */
module HostRequests {
  import opened Options
  import opened RequestDocuments
  import opened RequestShapes
  import opened RequestEncoding
  import P = RequestParser
  import L = RequestText

  /** What the firmware makes of a compact request text. */
  function Understood(doc: seq<Member>): Option<Request>
    requires forall i :: 0 <= i < |doc| ==> L.Layable(doc[i])
    requires P.InLine(L.LayDocument(doc).text, L.LayDocument(doc).tokens) && |L.LayDocument(doc).tokens| % 2 == 1
  {
    Parsed(P.Document(L.LayDocument(doc).text, L.LayDocument(doc).tokens))
  }

  lemma LayableRun(commandId: int, testType: string, parameters: Option<Dictionary>)
    requires EncodeRun(commandId, testType, parameters).Some?
    ensures forall i :: 0 <= i < |EncodeRun(commandId, testType, parameters).value| ==>
      L.Layable(EncodeRun(commandId, testType, parameters).value[i])
  {
  }

  /** From the text the host writes for a RUN to the request the firmware acts on. */
  lemma RunTextUnderstood(commandId: int, testType: string, parameters: Option<Dictionary>)
    requires EncodeRun(commandId, testType, parameters).Some?
    requires commandId <= UINT32_MAX && |testType| <= 31 && (parameters.Some? <==> testType == "rgb_led")
    ensures var doc := EncodeRun(commandId, testType, parameters).value;
            && (forall i :: 0 <= i < |doc| ==> L.Layable(doc[i]))
            && P.InLine(L.LayDocument(doc).text, L.LayDocument(doc).tokens) && |L.LayDocument(doc).tokens| % 2 == 1
            && Understood(doc) == Some(Request(RunComponentTest, commandId, "", testType, GivenColour(parameters)))
  {
    LayableRun(commandId, testType, parameters);
    L.LayoutReadsBack(EncodeRun(commandId, testType, parameters).value);
    RunRoundTrip(commandId, testType, parameters);
  }

  lemma StartTextUnderstood(commandId: int, uuid: string)
    requires 0 < commandId <= UINT32_MAX && IsUuid4(uuid)
    ensures var doc := EncodeStart(commandId, uuid).value;
            && (forall i :: 0 <= i < |doc| ==> L.Layable(doc[i]))
            && P.InLine(L.LayDocument(doc).text, L.LayDocument(doc).tokens) && |L.LayDocument(doc).tokens| % 2 == 1
            && Understood(doc) == Some(Request(StartTest, commandId, uuid, "", None))
  {
    L.LayoutReadsBack(EncodeStart(commandId, uuid).value);
    StartRoundTrip(commandId, uuid);
  }

  lemma StopTextUnderstood(commandId: int)
    requires 0 < commandId <= UINT32_MAX
    ensures var doc := EncodeStop(commandId).value;
            && (forall i :: 0 <= i < |doc| ==> L.Layable(doc[i]))
            && P.InLine(L.LayDocument(doc).text, L.LayDocument(doc).tokens) && |L.LayDocument(doc).tokens| % 2 == 1
            && Understood(doc) == Some(Request(StopComponentTest, commandId, "", "", None))
  {
    L.LayoutReadsBack(EncodeStop(commandId).value);
    StopRoundTrip(commandId);
  }
}
