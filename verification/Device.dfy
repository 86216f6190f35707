/** A raw byte stream cut at its LFs. */
module RawLines {
  import opened Bytes
  import F = Framing

  /** The complete lines of `data`, without their LFs and otherwise as sent. */
  function Segments(data: seq<byte>): seq<Line> {
    if data == [] then []
    else
      var before := data[..|data| - 1];
      if data[|data| - 1] == LF then Segments(before) + [Rest(before)] else Segments(before)
  }

  /** What follows the last LF. */
  function Rest(data: seq<byte>): Line {
    if data == [] || data[|data| - 1] == LF then [] else Rest(data[..|data| - 1]) + [data[|data| - 1]]
  }

  function Stripped(lines: seq<Line>): (stripped: seq<Line>)
    ensures |stripped| == |lines|
  {
    seq(|lines|, i requires 0 <= i < |lines| => F.StripCr(lines[i]))
  }

  function LineCount(data: seq<byte>): nat {
    if data == [] then 0 else LineCount(data[..|data| - 1]) + (if data[|data| - 1] == LF then 1 else 0)
  }

  /** What follows the LF of the n-th line. */
  function After(data: seq<byte>, n: nat): seq<byte>
    requires n <= |Segments(data)|
  {
    SegmentsBack(data);
    PrefixShorter(Segments(data), n);
    data[|Terminated(Segments(data)[..n])|..]
  }

  lemma Snoc(data: seq<byte>, b: byte)
    ensures Segments(data + [b]) == if b == LF then Segments(data) + [Rest(data)] else Segments(data)
    ensures Rest(data + [b]) == if b == LF then [] else Rest(data) + [b]
    ensures LineCount(data + [b]) == LineCount(data) + (if b == LF then 1 else 0)
  {
  }

  lemma TerminatedSnoc(lines: seq<Line>, line: Line)
    ensures Terminated(lines + [line]) == Terminated(lines) + line + [LF]
  {
    assert (lines + [line])[..|lines|] == lines;
  }

  /** The cut loses nothing, and cuts at every LF. */
  lemma {:induction false} SegmentsBack(data: seq<byte>)
    ensures data == Terminated(Segments(data)) + Rest(data)
    ensures LF !in Rest(data) && forall i :: 0 <= i < |Segments(data)| ==> LF !in Segments(data)[i]
  {
    if data != [] {
      var before, b := data[..|data| - 1], data[|data| - 1];
      SegmentsBack(before);
      assert data == before + [b];
      if b == LF {
        TerminatedSnoc(Segments(before), Rest(before));
        assert data == Terminated(Segments(data)) + [];
      }
    }
  }

  lemma Associates(a: seq<byte>, b: seq<byte>, c: seq<byte>, d: seq<byte>)
    ensures (a + b) + c + d == a + (b + c + d)
  {
  }

  lemma {:induction false} TerminatedAppend(a: seq<Line>, b: seq<Line>)
    ensures Terminated(a + b) == Terminated(a) + Terminated(b)
  {
    if b == [] {
      assert a + b == a && Terminated(a) + [] == Terminated(a);
    } else {
      var init, last := b[..|b| - 1], b[|b| - 1];
      TerminatedAppend(a, init);
      assert (a + b)[..|a + b| - 1] == a + init;
      Associates(Terminated(a), Terminated(init), last, [LF]);
    }
  }

  lemma PrefixShorter(lines: seq<Line>, n: nat)
    requires n <= |lines|
    ensures |Terminated(lines[..n])| <= |Terminated(lines)|
  {
    assert lines == lines[..n] + lines[n..];
    TerminatedAppend(lines[..n], lines[n..]);
  }

  lemma {:induction false} LineCountAppend(a: seq<byte>, b: seq<byte>)
    ensures LineCount(a + b) == LineCount(a) + LineCount(b)
  {
    if b == [] {
      assert a + b == a;
    } else {
      assert (a + b)[..|a + b| - 1] == a + b[..|b| - 1];
      LineCountAppend(a, b[..|b| - 1]);
    }
  }

  lemma {:induction false} ShorterThanAll(lines: seq<Line>, i: nat)
    requires i < |lines|
    ensures |lines[i]| < |Terminated(lines)|
  {
    if i < |lines| - 1 {
      ShorterThanAll(lines[..|lines| - 1], i);
    }
  }

  lemma {:induction false} LineCountTerminated(lines: seq<Line>)
    ensures LineCount(Terminated(lines)) >= |lines|
  {
    if lines != [] {
      var init, last := lines[..|lines| - 1], lines[|lines| - 1];
      LineCountTerminated(init);
      assert lines == init + [last];
      LineCountAppend(Terminated(init) + last, [LF]);
      LineCountAppend(Terminated(init), last);
      assert [LF][..0] == [];
    }
  }

  /** More data only adds lines. */
  lemma {:induction false} SegmentsGrow(data: seq<byte>, more: seq<byte>)
    ensures Segments(data) <= Segments(data + more)
  {
    if more == [] {
      assert data + more == data;
    } else {
      var init, b := more[..|more| - 1], more[|more| - 1];
      SegmentsGrow(data, init);
      assert data + more == (data + init) + [b];
      Snoc(data + init, b);
    }
  }

  lemma CutAfter(data: seq<byte>, front: seq<byte>, back: seq<byte>, rest: seq<byte>)
    requires data == front + back + rest
    ensures data[|front|..] == back + rest && data == front + data[|front|..]
  {
  }

  /** The waiting lines and the open one. */
  lemma AfterParts(data: seq<byte>, n: nat)
    requires n <= |Segments(data)|
    ensures After(data, n) == Terminated(Segments(data)[n..]) + Rest(data)
  {
    var lines := Segments(data);
    SegmentsBack(data);
    assert lines == lines[..n] + lines[n..];
    TerminatedAppend(lines[..n], lines[n..]);
    CutAfter(data, Terminated(lines[..n]), Terminated(lines[n..]), Rest(data));
  }

  lemma DropGrows(data: seq<byte>, more: seq<byte>, k: nat)
    requires k <= |data|
    ensures (data + more)[k..] == data[k..] + more
  {
  }

  lemma AfterGrows(data: seq<byte>, more: seq<byte>, n: nat)
    requires n <= |Segments(data)|
    ensures n <= |Segments(data + more)| && After(data + more, n) == After(data, n) + more
  {
    SegmentsGrow(data, more);
    SegmentsBack(data);
    PrefixShorter(Segments(data), n);
    assert Segments(data + more)[..n] == Segments(data)[..n];
    DropGrows(data, more, |Terminated(Segments(data)[..n])|);
  }

  lemma TerminatedHead(lines: seq<Line>)
    requires lines != []
    ensures Terminated(lines) == lines[0] + [LF] + Terminated(lines[1..])
  {
    assert lines == [lines[0]] + lines[1..];
    TerminatedAppend([lines[0]], lines[1..]);
    assert [lines[0]] == [] + [lines[0]];
    TerminatedSnoc([], lines[0]);
  }

  /** Answering one more line drops it from the front. */
  lemma AfterNext(data: seq<byte>, n: nat)
    requires n < |Segments(data)|
    ensures After(data, n) == Segments(data)[n] + [LF] + After(data, n + 1)
  {
    AfterParts(data, n);
    AfterParts(data, n + 1);
    TerminatedHead(Segments(data)[n..]);
    assert Segments(data)[n..][1..] == Segments(data)[n + 1..];
  }
}

/** End-to-end flow control: receive ring, framer, line queue, session and transmit queue
    together, under any interleaving, as long as the computer keeps its outstanding requests
    within two lines and 511 bytes.  Lines may end in LF or CRLF. */
module Device {
  import opened Options
  import opened Bytes
  import C = Conversation
  import D = RequestDocuments
  import F = Framing
  import I = TransportModel
  import L = RawLines
  import R = ReceivePath
  import S = SessionModel
  import T = TransmitPath
  import V = ServiceTurns

  const LINE_BUDGET: nat := 2
  const BYTE_BUDGET: nat := 511

  /** A response to a request, or one a running test gave of its own accord. */
  datatype Entry = Reply(request: Line, response: S.Response) | Report(response: S.Response)

  /** `stream` is every byte the computer sent, `log` every response in the order they were
      queued, `heard` the session steps taken. */
  datatype Device = Device(inbound: I.Inbound, session: S.Session, transmitter: T.Transmitter,
                           stream: seq<byte>, log: seq<Entry>, heard: seq<S.Step>)

  /** An interrupt delivers a byte; the main loop pops one, answers a request, advances the
      active test; the transmit path moves. */
  datatype Step = Arrival(value: byte) | Pop | Answer | Advance(outcome: S.Outcome) | Transmit(event: T.Event)

  const IDLE := Device(I.IDLE.inbound, S.IDLE, T.IDLE, [], [], [])

  function Service(d: Device): S.Service {
    S.Service(d.session, d.inbound.inbox, d.transmitter)
  }

  function NextReply(d: Device, codec: S.Codec): S.Response
    requires d.inbound.inbox.lines != []
  {
    S.Answer(d.session, codec.parse(d.inbound.inbox.lines[0])).1
  }

  function NextReport(d: Device, outcome: S.Outcome): Option<S.Response> {
    if T.HasRoom(d.transmitter) then S.Advance(d.session, outcome).1 else None
  }

  function TakeAnswer(d: Device, codec: S.Codec): Device
    requires T.Usable(d.transmitter)
  {
    if !S.RequestReady(Service(d)) then d
    else
      var v := S.HandleLine(Service(d), codec);
      var line := d.inbound.inbox.lines[0];
      d.(session := v.session, inbound := d.inbound.(inbox := v.inbox), transmitter := v.transmitter,
         log := d.log + [Reply(line, NextReply(d, codec))], heard := d.heard + [S.Request(codec.parse(line))])
  }

  function TakeAdvance(d: Device, codec: S.Codec, outcome: S.Outcome): Device
    requires T.Usable(d.transmitter)
  {
    if !T.HasRoom(d.transmitter) || d.session.active.None? then d
    else
      var v := S.AdvanceTest(Service(d), codec, outcome);
      var report := NextReport(d, outcome);
      d.(session := v.session, transmitter := v.transmitter, heard := d.heard + [S.Tick(outcome)],
         log := if report.None? then d.log else d.log + [Report(report.value)])
  }

  function Take(d: Device, codec: S.Codec, step: Step): (e: Device)
    requires T.Usable(d.transmitter)
    ensures T.Usable(e.transmitter)
  {
    match step
    case Arrival(b) => d.(inbound := I.Receive(d.inbound, [b]), stream := d.stream + [b])
    case Pop => d.(inbound := I.TakeByte(d.inbound))
    case Answer => TakeAnswer(d, codec)
    case Advance(outcome) => TakeAdvance(d, codec, outcome)
    case Transmit(event) => d.(transmitter := T.Handle(d.transmitter, event))
  }

  function After(codec: S.Codec, steps: seq<Step>): (d: Device)
    ensures T.Usable(d.transmitter)
  {
    if steps == [] then IDLE else Take(After(codec, steps[..|steps| - 1]), codec, steps[|steps| - 1])
  }

  // ---------------------------------------------------------------- what the computer sent

  function Requests(log: seq<Entry>): seq<Line> {
    if log == [] then []
    else Requests(log[..|log| - 1]) + (if log[|log| - 1].Reply? then [log[|log| - 1].request] else [])
  }

  function Responses(log: seq<Entry>): seq<S.Response> {
    seq(|log|, i requires 0 <= i < |log| => log[i].response)
  }

  /** The bytes past the LF of the last answered line. */
  function Outstanding(d: Device): seq<byte> {
    var n := |Requests(d.log)|;
    if n <= |L.Segments(d.stream)| then L.After(d.stream, n) else []
  }

  predicate Fits(codec: S.Codec, response: S.Response) {
    codec.render(response).Some? && T.Queueable(codec.render(response).value)
  }

  /** The computer's side of flow control, the firmware's own texts, and no reconfiguration. */
  predicate Allowed(d: Device, codec: S.Codec, step: Step) {
    match step
    case Arrival(b) => |Outstanding(d)| < BYTE_BUDGET && L.LineCount(Outstanding(d) + [b]) <= LINE_BUDGET
    case Pop => true
    case Answer => S.RequestReady(Service(d)) ==> Fits(codec, NextReply(d, codec))
    case Advance(outcome) => NextReport(d, outcome).Some? ==> Fits(codec, NextReport(d, outcome).value)
    case Transmit(event) => event.Finish? || event.Start? || event.TransferDone?
  }

  predicate AllAllowed(codec: S.Codec, steps: seq<Step>) {
    steps == [] ||
    (AllAllowed(codec, steps[..|steps| - 1]) && Allowed(After(codec, steps[..|steps| - 1]), codec, steps[|steps| - 1]))
  }

  // ---------------------------------------------------------------- the invariant

  predicate NothingLost(t: I.Inbound) {
    && !t.receiver.ring.overflowPending && t.receiver.ring.dropped == 0
    && !t.receiver.framer.discarding && t.receiver.framer.overflows == 0
    && t.inbox.dropped == 0
  }

  /** The bytes of `stream` that have left the ring. */
  function Popped(t: I.Inbound, stream: seq<byte>): seq<byte>
    requires |t.receiver.ring.bytes| <= |stream|
  {
    stream[..|stream| - |t.receiver.ring.bytes|]
  }

  /** Where the bytes of `stream` are: the answered lines and the waiting ones are the complete
      lines popped, the framer holds the open one, the ring the rest. */
  predicate Received(t: I.Inbound, stream: seq<byte>, answered: seq<Line>) {
    var bytes := t.receiver.ring.bytes;
    && NothingLost(t) && |bytes| <= |stream| && stream == Popped(t, stream) + bytes
    && answered + t.inbox.lines == L.Stripped(L.Segments(Popped(t, stream)))
    && t.receiver.framer.line == L.Rest(Popped(t, stream))
  }

  /** At most two lines and 511 bytes are past the `n` answered lines. */
  predicate Bounded(stream: seq<byte>, n: nat) {
    n <= |L.Segments(stream)| && |L.After(stream, n)| <= BYTE_BUDGET && L.LineCount(L.After(stream, n)) <= LINE_BUDGET
  }

  /** Every queued line is the text of a response, in order. */
  predicate Rendered(codec: S.Codec, accepted: seq<Line>, responses: seq<S.Response>) {
    |accepted| == |responses| &&
    forall i :: 0 <= i < |responses| ==>
      codec.render(responses[i]).Some? && accepted[i] == codec.render(responses[i]).value + [LF]
  }

  /** The log is what the session said as it took the steps `heard`: a request step is the
      parse of the logged line, its reply the answer the session gave in the state it was in;
      a tick is logged exactly when the active test reported. */
  predicate Narrated(codec: S.Codec, heard: seq<S.Step>, log: seq<Entry>)
    decreases |heard|
  {
    if heard == [] then log == []
    else
      var before := heard[..|heard| - 1];
      match heard[|heard| - 1]
      case Request(request) =>
        && log != [] && log[|log| - 1].Reply? && request == codec.parse(log[|log| - 1].request)
        && log[|log| - 1].response == S.Answer(S.After(before), request).1
        && Narrated(codec, before, log[..|log| - 1])
      case Tick(outcome) =>
        var report := S.Advance(S.After(before), outcome).1;
        if report.None? then Narrated(codec, before, log)
        else log != [] && log[|log| - 1] == Report(report.value) && Narrated(codec, before, log[..|log| - 1])
  }

  /** Receiving and answering, whatever becomes of the responses' texts. */
  ghost predicate Front(d: Device, codec: S.Codec) {
    && Received(d.inbound, d.stream, Requests(d.log)) && Bounded(d.stream, |Requests(d.log)|)
    && T.Valid(d.transmitter) && d.session == S.After(d.heard) && Narrated(codec, d.heard, d.log)
  }

  ghost predicate Inv(d: Device, codec: S.Codec) {
    && Front(d, codec) && d.transmitter.resets == 0 && d.transmitter.rejected == 0
    && Rendered(codec, d.transmitter.accepted, Responses(d.log))
  }

  // ---------------------------------------------------------------- receiving

  /** The outstanding bytes, by where they are. */
  lemma OutstandingParts(t: I.Inbound, stream: seq<byte>, answered: seq<Line>)
    requires Received(t, stream, answered)
    ensures var popped, n := Popped(t, stream), |answered|;
            && n + |t.inbox.lines| == |L.Segments(popped)|
            && n <= |L.Segments(stream)|
            && L.After(stream, n) == Terminated(L.Segments(popped)[n..]) + L.Rest(popped) + t.receiver.ring.bytes
  {
    var popped, n := Popped(t, stream), |answered|;
    assert |answered + t.inbox.lines| == |L.Segments(popped)|;
    L.AfterGrows(popped, t.receiver.ring.bytes, n);
    L.AfterParts(popped, n);
  }

  /** So everything that waits is small. */
  lemma WaitingIsSmall(t: I.Inbound, stream: seq<byte>, answered: seq<Line>)
    requires Received(t, stream, answered) && Bounded(stream, |answered|)
    ensures |t.receiver.ring.bytes| <= |L.After(stream, |answered|)| && |t.receiver.framer.line| <= BYTE_BUDGET
    ensures |t.inbox.lines| + L.LineCount(t.receiver.ring.bytes) <= LINE_BUDGET
  {
    var popped, n := Popped(t, stream), |answered|;
    OutstandingParts(t, stream, answered);
    var waiting := L.Segments(popped)[n..];
    L.LineCountAppend(Terminated(waiting) + L.Rest(popped), t.receiver.ring.bytes);
    L.LineCountAppend(Terminated(waiting), L.Rest(popped));
    L.LineCountTerminated(waiting);
  }

  lemma ArrivalKept(t: I.Inbound, stream: seq<byte>, answered: seq<Line>, b: byte)
    requires Received(t, stream, answered) && Bounded(stream, |answered|)
    requires |L.After(stream, |answered|)| < BYTE_BUDGET &&
             L.LineCount(L.After(stream, |answered|) + [b]) <= LINE_BUDGET
    ensures Received(I.Receive(t, [b]), stream + [b], answered) && Bounded(stream + [b], |answered|)
  {
    WaitingIsSmall(t, stream, answered);
    L.AfterGrows(stream, [b], |answered|);
    var u := I.Receive(t, [b]);
    assert [b][..0] == [] && R.StoreAll(t.receiver.ring, []) == t.receiver.ring;
    assert u.receiver.ring == R.Store(t.receiver.ring, b);
    assert Popped(u, stream + [b]) == Popped(t, stream);
  }

  /** One more byte leaves the ring. */
  lemma PoppedMore(t: I.Inbound, stream: seq<byte>)
    requires t.receiver.ring.bytes != [] && |t.receiver.ring.bytes| <= |stream|
    requires stream == Popped(t, stream) + t.receiver.ring.bytes
    ensures var u := I.TakeByte(t);
            && Popped(u, stream) == Popped(t, stream) + [t.receiver.ring.bytes[0]]
            && stream == Popped(u, stream) + u.receiver.ring.bytes
  {
    var bytes := t.receiver.ring.bytes;
    assert stream[|stream| - |bytes|] == bytes[0];
    assert stream[|stream| - |bytes| + 1..] == bytes[1..];
  }

  lemma StrippedSnoc(lines: seq<Line>, line: Line)
    ensures L.Stripped(lines + [line]) == L.Stripped(lines) + [F.StripCr(line)]
  {
  }

  /** The LF of a line leaves the ring: the line, less a CR, waits. */
  lemma PopLf(t: I.Inbound, stream: seq<byte>, answered: seq<Line>)
    requires Received(t, stream, answered) && |t.inbox.lines| < I.LINE_QUEUE_DEPTH
    requires t.receiver.ring.bytes != [] && t.receiver.ring.bytes[0] == LF
    ensures Received(I.TakeByte(t), stream, answered)
  {
    var popped, line, u := Popped(t, stream), t.receiver.framer.line, I.TakeByte(t);
    PoppedMore(t, stream);
    L.Snoc(popped, LF);
    StrippedSnoc(L.Segments(popped), line);
    var g := F.Consume(t.receiver.framer, LF);
    assert g.lines == t.receiver.framer.lines + [F.StripCr(line)] && g.line == [];
    assert u.receiver.framer == g;
    assert u.inbox.lines == t.inbox.lines + [F.StripCr(line)];
    assert answered + (t.inbox.lines + [F.StripCr(line)]) == answered + t.inbox.lines + [F.StripCr(line)];
  }

  /** Another byte leaves the ring for the open line. */
  lemma PopOther(t: I.Inbound, stream: seq<byte>, answered: seq<Line>)
    requires Received(t, stream, answered) && |t.receiver.framer.line| < F.MAX_LINE_LENGTH
    requires t.receiver.ring.bytes != [] && t.receiver.ring.bytes[0] != LF
    ensures Received(I.TakeByte(t), stream, answered)
  {
    var b, u := t.receiver.ring.bytes[0], I.TakeByte(t);
    PoppedMore(t, stream);
    L.Snoc(Popped(t, stream), b);
    assert u.receiver.framer == t.receiver.framer.(line := t.receiver.framer.line + [b]);
    assert u.inbox == t.inbox;
  }

  lemma PopKept(t: I.Inbound, stream: seq<byte>, answered: seq<Line>)
    requires Received(t, stream, answered) && Bounded(stream, |answered|)
    ensures Received(I.TakeByte(t), stream, answered)
  {
    var bytes := t.receiver.ring.bytes;
    if bytes != [] {
      WaitingIsSmall(t, stream, answered);
      if bytes[0] == LF {
        L.LineCountAppend([LF], bytes[1..]);
        assert bytes == [LF] + bytes[1..] && [LF][..0] == [];
        PopLf(t, stream, answered);
      } else {
        PopOther(t, stream, answered);
      }
    } else {
      assert I.TakeByte(t) == t;
    }
  }

  /** Every waiting line is short. */
  lemma WaitingLineIsShort(t: I.Inbound, stream: seq<byte>, answered: seq<Line>, i: nat)
    requires Received(t, stream, answered) && Bounded(stream, |answered|) && i < |t.inbox.lines|
    ensures |t.inbox.lines[i]| < BYTE_BUDGET
  {
    var popped, n := Popped(t, stream), |answered|;
    OutstandingParts(t, stream, answered);
    assert (answered + t.inbox.lines)[n + i] == t.inbox.lines[i];
    L.ShorterThanAll(L.Segments(popped)[n..], i);
  }

  /** So the oldest one always fits the application's buffer. */
  lemma OldestLineFits(t: I.Inbound, stream: seq<byte>, answered: seq<Line>)
    requires Received(t, stream, answered) && Bounded(stream, |answered|) && t.inbox.lines != []
    ensures |t.inbox.lines[0]| < BYTE_BUDGET
    ensures I.PeekLine(t.inbox, S.LINE_CAPACITY).Available?
  {
    WaitingLineIsShort(t, stream, answered, 0);
  }

  lemma MoveFirst(a: seq<Line>, b: seq<Line>)
    requires b != []
    ensures a + [b[0]] + b[1..] == a + b
  {
  }

  lemma BoundedNext(stream: seq<byte>, n: nat)
    requires Bounded(stream, n) && n < |L.Segments(stream)|
    ensures Bounded(stream, n + 1)
  {
    L.AfterNext(stream, n);
    L.LineCountAppend(L.Segments(stream)[n] + [LF], L.After(stream, n + 1));
  }

  lemma AnswerKept(t: I.Inbound, stream: seq<byte>, answered: seq<Line>)
    requires Received(t, stream, answered) && Bounded(stream, |answered|) && t.inbox.lines != []
    ensures var u := t.(inbox := I.ReadLine(t.inbox, S.LINE_CAPACITY));
            Received(u, stream, answered + [t.inbox.lines[0]]) && Bounded(stream, |answered| + 1)
  {
    OldestLineFits(t, stream, answered);
    var u := t.(inbox := I.ReadLine(t.inbox, S.LINE_CAPACITY));
    assert u.receiver == t.receiver && u.inbox == t.inbox.(lines := t.inbox.lines[1..]);
    MoveFirst(answered, t.inbox.lines);
    assert Received(u, stream, answered + [t.inbox.lines[0]]);
    L.SegmentsGrow(Popped(t, stream), t.receiver.ring.bytes);
    OutstandingParts(t, stream, answered);
    BoundedNext(stream, |answered|);
  }

  // ---------------------------------------------------------------- answering

  lemma QueuedResponse(t: T.Transmitter, codec: S.Codec, responses: seq<S.Response>, response: S.Response)
    requires T.Valid(t) && t.resets == 0 && t.rejected == 0 && Rendered(codec, t.accepted, responses)
    requires T.HasRoom(t) && Fits(codec, response)
    ensures var u := S.Queued(t, codec.render(response));
            && T.Valid(u) && u.resets == 0 && u.rejected == 0
            && Rendered(codec, u.accepted, responses + [response])
  {
    T.QueueKeepsValid(t, codec.render(response).value);
  }

  lemma LogSnoc(log: seq<Entry>, e: Entry)
    ensures Responses(log + [e]) == Responses(log) + [e.response]
    ensures Requests(log + [e]) == if e.Reply? then Requests(log) + [e.request] else Requests(log)
  {
    assert (log + [e])[..|log|] == log;
    assert Requests(log) + [] == Requests(log);
  }

  lemma NarratedReply(codec: S.Codec, heard: seq<S.Step>, log: seq<Entry>, line: Line)
    requires Narrated(codec, heard, log)
    ensures var request := codec.parse(line);
            && Narrated(codec, heard + [S.Request(request)], log + [Reply(line, S.Answer(S.After(heard), request).1)])
            && S.After(heard + [S.Request(request)]) == S.Heard(S.After(heard), request)
  {
    var request := codec.parse(line);
    var reply := Reply(line, S.Answer(S.After(heard), request).1);
    assert (heard + [S.Request(request)])[..|heard|] == heard && (log + [reply])[..|log|] == log;
  }

  lemma NarratedTick(codec: S.Codec, heard: seq<S.Step>, log: seq<Entry>, outcome: S.Outcome)
    requires Narrated(codec, heard, log)
    ensures var report := S.Advance(S.After(heard), outcome).1;
            && Narrated(codec, heard + [S.Tick(outcome)], if report.None? then log else log + [Report(report.value)])
            && S.After(heard + [S.Tick(outcome)]) == S.Advanced(S.After(heard), outcome)
  {
    var report := S.Advance(S.After(heard), outcome).1;
    assert (heard + [S.Tick(outcome)])[..|heard|] == heard;
    if report.Some? {
      assert (log + [Report(report.value)])[..|log|] == log;
    }
  }

  lemma AnswerReceived(d: Device, codec: S.Codec)
    requires Front(d, codec) && S.RequestReady(Service(d))
    ensures var e := TakeAnswer(d, codec);
            Received(e.inbound, e.stream, Requests(e.log)) && Bounded(e.stream, |Requests(e.log)|)
  {
    var e, line := TakeAnswer(d, codec), d.inbound.inbox.lines[0];
    AnswerKept(d.inbound, d.stream, Requests(d.log));
    LogSnoc(d.log, Reply(line, NextReply(d, codec)));
    assert Requests(e.log) == Requests(d.log) + [line];
    assert e.inbound == d.inbound.(inbox := I.ReadLine(d.inbound.inbox, S.LINE_CAPACITY));
  }

  lemma AnswerNarrated(d: Device, codec: S.Codec)
    requires T.Usable(d.transmitter) && S.RequestReady(Service(d))
    requires d.session == S.After(d.heard) && Narrated(codec, d.heard, d.log)
    ensures var e := TakeAnswer(d, codec); e.session == S.After(e.heard) && Narrated(codec, e.heard, e.log)
  {
    NarratedReply(codec, d.heard, d.log, d.inbound.inbox.lines[0]);
  }

  lemma AnswerKeepsFront(d: Device, codec: S.Codec)
    requires Front(d, codec)
    ensures Front(TakeAnswer(d, codec), codec)
  {
    if S.RequestReady(Service(d)) {
      AnswerReceived(d, codec);
      AnswerNarrated(d, codec);
      QueuedKeepsValid(d.transmitter, codec.render(NextReply(d, codec)));
    }
  }

  lemma QueuedKeepsValid(t: T.Transmitter, text: Option<Line>)
    requires T.Valid(t)
    ensures T.Valid(S.Queued(t, text))
  {
    if text.Some? {
      T.QueueKeepsValid(t, text.value);
    }
  }

  lemma AdvanceKeepsFront(d: Device, codec: S.Codec, outcome: S.Outcome)
    requires Front(d, codec)
    ensures Front(TakeAdvance(d, codec, outcome), codec)
  {
    if T.HasRoom(d.transmitter) && d.session.active.Some? {
      NarratedTick(codec, d.heard, d.log, outcome);
      var report := NextReport(d, outcome);
      if report.Some? {
        LogSnoc(d.log, Report(report.value));
        QueuedKeepsValid(d.transmitter, codec.render(report.value));
      }
    }
  }

  /** Everything but an arrival is free of conditions on the receiving side. */
  lemma StepKeepsFront(d: Device, codec: S.Codec, step: Step)
    requires Front(d, codec) && !step.Arrival?
    ensures Front(Take(d, codec, step), codec)
  {
    match step
    case Pop => PopKept(d.inbound, d.stream, Requests(d.log));
    case Answer => AnswerKeepsFront(d, codec);
    case Advance(outcome) => AdvanceKeepsFront(d, codec, outcome);
    case Transmit(event) => T.HandleKeepsValid(d.transmitter, event);
  }

  lemma AnswerKeepsInv(d: Device, codec: S.Codec)
    requires Inv(d, codec) && Allowed(d, codec, Answer)
    ensures Inv(TakeAnswer(d, codec), codec)
  {
    AnswerKeepsFront(d, codec);
    if S.RequestReady(Service(d)) {
      QueuedResponse(d.transmitter, codec, Responses(d.log), NextReply(d, codec));
      LogSnoc(d.log, Reply(d.inbound.inbox.lines[0], NextReply(d, codec)));
    }
  }

  lemma AdvanceKeepsInv(d: Device, codec: S.Codec, outcome: S.Outcome)
    requires Inv(d, codec) && Allowed(d, codec, Advance(outcome))
    ensures Inv(TakeAdvance(d, codec, outcome), codec)
  {
    AdvanceKeepsFront(d, codec, outcome);
    if T.HasRoom(d.transmitter) && NextReport(d, outcome).Some? {
      QueuedResponse(d.transmitter, codec, Responses(d.log), NextReport(d, outcome).value);
      LogSnoc(d.log, Report(NextReport(d, outcome).value));
    }
  }

  lemma TransmitKeepsInv(d: Device, codec: S.Codec, event: T.Event)
    requires Inv(d, codec) && Allowed(d, codec, Transmit(event))
    ensures Inv(d.(transmitter := T.Handle(d.transmitter, event)), codec)
  {
    T.HandleKeepsValid(d.transmitter, event);
    var u := T.Handle(d.transmitter, event);
    assert u.accepted == d.transmitter.accepted && u.resets == 0 && u.rejected == 0;
  }

  lemma TakeKeepsInv(d: Device, codec: S.Codec, step: Step)
    requires Inv(d, codec) && Allowed(d, codec, step)
    ensures Inv(Take(d, codec, step), codec)
  {
    match step
    case Arrival(b) => ArrivalKept(d.inbound, d.stream, Requests(d.log), b);
    case Pop => PopKept(d.inbound, d.stream, Requests(d.log));
    case Answer => AnswerKeepsInv(d, codec);
    case Advance(outcome) => AdvanceKeepsInv(d, codec, outcome);
    case Transmit(event) => TransmitKeepsInv(d, codec, event);
  }

  lemma {:induction false} InvAlways(codec: S.Codec, steps: seq<Step>)
    requires AllAllowed(codec, steps)
    ensures Inv(After(codec, steps), codec)
  {
    if steps != [] {
      InvAlways(codec, steps[..|steps| - 1]);
      TakeKeepsInv(After(codec, steps[..|steps| - 1]), codec, steps[|steps| - 1]);
    }
  }

  // ---------------------------------------------------------------- the log explained

  /** The requests among the session's steps. */
  function RequestsHeard(heard: seq<S.Step>): seq<Option<D.Request>> {
    if heard == [] then []
    else
      var last := heard[|heard| - 1];
      RequestsHeard(heard[..|heard| - 1]) + (if last.Request? then [last.request] else [])
  }

  /** `entry` is the reply of the session, in the state it had before its step `k`, to the
      parse of the entry's own line. */
  predicate RepliesAt(codec: S.Codec, heard: seq<S.Step>, entry: Entry, k: nat)
    requires entry.Reply?
  {
    && k < |heard| && heard[k] == S.Request(codec.parse(entry.request))
    && entry.response == S.Answer(S.After(heard[..k]), codec.parse(entry.request)).1
  }

  lemma {:induction false} NarratedMeans(codec: S.Codec, heard: seq<S.Step>, log: seq<Entry>)
    requires Narrated(codec, heard, log)
    ensures RequestsHeard(heard) == V.Parses(codec, Requests(log)) && S.After(heard).said == Responses(log)
    decreases |heard|
  {
    if heard != [] {
      var before, last := heard[..|heard| - 1], heard[|heard| - 1];
      if log != [] {
        assert log == log[..|log| - 1] + [log[|log| - 1]];
        LogSnoc(log[..|log| - 1], log[|log| - 1]);
      }
      if last.Request? || S.Advance(S.After(before), last.outcome).1.Some? {
        NarratedMeans(codec, before, log[..|log| - 1]);
      } else {
        NarratedMeans(codec, before, log);
      }
    }
  }

  lemma {:induction false} ReplyIsAnswer(codec: S.Codec, heard: seq<S.Step>, log: seq<Entry>, i: nat) returns (k: nat)
    requires Narrated(codec, heard, log) && i < |log| && log[i].Reply?
    ensures RepliesAt(codec, heard, log[i], k) && S.After(heard[..k]).said == Responses(log[..i])
    decreases |heard|
  {
    var before, last := heard[..|heard| - 1], heard[|heard| - 1];
    if last.Request? && i == |log| - 1 {
      k := |before|;
      NarratedMeans(codec, before, log[..i]);
    } else {
      var shorter := if last.Request? ||
          S.Advance(S.After(before), last.outcome).1.Some? then log[..|log| - 1] else log;
      k := ReplyIsAnswer(codec, before, shorter, i);
      assert heard[..k] == before[..k] && log[..i] == shorter[..i];
    }
  }

  lemma RepliesAreAnswers(codec: S.Codec, heard: seq<S.Step>, log: seq<Entry>)
    requires Narrated(codec, heard, log)
    ensures forall i :: 0 <= i < |log| && log[i].Reply? ==> exists k :: RepliesAt(codec, heard, log[i], k)
  {
    forall i | 0 <= i < |log| && log[i].Reply? ensures exists k :: RepliesAt(codec, heard, log[i], k) {
      var k := ReplyIsAnswer(codec, heard, log, i);
    }
  }

  // ---------------------------------------------------------------- the theorems

  /** Flow control holds end to end: no counter of dropped or rejected data ever moves, and a
      waiting request never exceeds the application's buffer. */
  lemma NothingIsDropped(codec: S.Codec, steps: seq<Step>)
    requires AllAllowed(codec, steps)
    ensures var d := After(codec, steps);
            && d.inbound.receiver.ring.dropped == 0 && d.inbound.receiver.framer.overflows == 0
            && d.inbound.inbox.dropped == 0 && d.transmitter.rejected == 0
            && I.PeekLine(d.inbound.inbox, S.LINE_CAPACITY) != I.BufferTooSmall
  {
    InvAlways(codec, steps);
    var d := After(codec, steps);
    if d.inbound.inbox.lines != [] {
      OldestLineFits(d.inbound, d.stream, Requests(d.log));
    }
  }

  /** Conservation and order: the answered requests and then the waiting ones are exactly the
      complete lines the computer sent that have left the ring, each less one trailing CR; the
      framer holds the open line and the ring the rest.  The session heard the parse of the
      answered requests, in that order; each has one reply, which is the session's answer to
      it in the state it had then; the texts are queued in that order, and what has reached the
      computer is a prefix of them. */
  lemma EveryRequestAnsweredOnce(codec: S.Codec, steps: seq<Step>)
    requires AllAllowed(codec, steps)
    ensures var d := After(codec, steps);
            && Received(d.inbound, d.stream, Requests(d.log))
            && RequestsHeard(d.heard) == V.Parses(codec, Requests(d.log))
            && (forall i :: 0 <= i < |d.log| && d.log[i].Reply? ==> exists k :: RepliesAt(codec, d.heard, d.log[i], k))
            && Narrated(codec, d.heard, d.log) && d.session == S.After(d.heard) && d.session.said == Responses(d.log)
            && Rendered(codec, d.transmitter.accepted, Responses(d.log))
            && d.transmitter.sent <= d.transmitter.accepted
  {
    InvAlways(codec, steps);
    var d := After(codec, steps);
    NarratedMeans(codec, d.heard, d.log);
    T.SentIsPrefix(d.transmitter);
    RepliesAreAnswers(codec, d.heard, d.log);
  }

  lemma {:induction false} HeardIsParseable(codec: S.Codec, heard: seq<S.Step>, log: seq<Entry>)
    requires Narrated(codec, heard, log) && forall line :: S.FromParser(codec.parse(line))
    ensures S.Parseable(heard)
    decreases |heard|
  {
    if heard != [] {
      var before, last := heard[..|heard| - 1], heard[|heard| - 1];
      if last.Request? || S.Advance(S.After(before), last.outcome).1.Some? {
        HeardIsParseable(codec, before, log[..|log| - 1]);
      } else {
        HeardIsParseable(codec, before, log);
      }
    }
  }

  predicate OwnAccount(d: Device, codec: S.Codec) {
    d.session == S.After(d.heard) && Narrated(codec, d.heard, d.log)
  }

  lemma AdvanceNarrated(d: Device, codec: S.Codec, outcome: S.Outcome)
    requires T.Usable(d.transmitter) && OwnAccount(d, codec)
    ensures OwnAccount(TakeAdvance(d, codec, outcome), codec)
  {
    if T.HasRoom(d.transmitter) && d.session.active.Some? {
      NarratedTick(codec, d.heard, d.log, outcome);
    }
  }

  lemma StepNarrated(d: Device, codec: S.Codec, step: Step)
    requires T.Usable(d.transmitter) && OwnAccount(d, codec)
    ensures OwnAccount(Take(d, codec, step), codec)
  {
    match step
    case Answer =>
      if S.RequestReady(Service(d)) {
        AnswerNarrated(d, codec);
      }
    case Advance(outcome) => AdvanceNarrated(d, codec, outcome);
    case _ =>
  }

  /** Whatever arrives and whatever is lost, the log is the session's own account. */
  lemma {:induction false} NarratedAlways(codec: S.Codec, steps: seq<Step>)
    ensures OwnAccount(After(codec, steps), codec)
  {
    if steps != [] {
      NarratedAlways(codec, steps[..|steps| - 1]);
      StepNarrated(After(codec, steps[..|steps| - 1]), codec, steps[|steps| - 1]);
    }
  }

  lemma ParseablePrefix(heard: seq<S.Step>, k: nat)
    requires S.Parseable(heard) && k <= |heard|
    ensures S.Parseable(heard[..k])
  {
  }

  /** In every run, overflows included, each reply is the one its request must get after the
      responses logged before it: its identifier, its kind and its error code.  What else is
      logged is, in order, what the tests in progress returned, completions with their verdict. */
  lemma EveryResponseIsRight(codec: S.Codec, steps: seq<Step>)
    requires forall line :: S.FromParser(codec.parse(line))
    ensures var d := After(codec, steps);
            && (forall i :: 0 <= i < |d.log| && d.log[i].Reply? ==>
                  C.RightReply(Responses(d.log[..i]), codec.parse(d.log[i].request), d.log[i].response))
            && C.Unasked(Responses(d.log)) == C.Reports(d.heard)
            && C.Starts(d.session.calls) == C.AcceptedRuns(d.heard)
  {
    NarratedAlways(codec, steps);
    var d := After(codec, steps);
    HeardIsParseable(codec, d.heard, d.log);
    NarratedMeans(codec, d.heard, d.log);
    C.ReportsAreOutcomes(d.heard);
    C.StartsAreAcceptedRuns(d.heard);
    forall i | 0 <= i < |d.log| && d.log[i].Reply?
      ensures C.RightReply(Responses(d.log[..i]), codec.parse(d.log[i].request), d.log[i].response)
    {
      var k := ReplyIsAnswer(codec, d.heard, d.log, i);
      ParseablePrefix(d.heard, k);
      C.RepliesAreRight(d.heard[..k], codec.parse(d.log[i].request));
    }
  }

  predicate Short(t: I.Inbound) {
    |t.receiver.framer.line| <= 4096 && forall i :: 0 <= i < |t.inbox.lines| ==> |t.inbox.lines[i]| <= 4096
  }

  lemma TakeByteKeepsShort(t: I.Inbound)
    requires Short(t)
    ensures Short(I.TakeByte(t))
  {
  }

  /** In every run, whatever the computer sends, the application's buffer is large enough for
      the line it reads next. */
  lemma {:induction false} LinesFitTheBuffer(codec: S.Codec, steps: seq<Step>)
    ensures Short(After(codec, steps).inbound)
    ensures I.PeekLine(After(codec, steps).inbound.inbox, S.LINE_CAPACITY) != I.BufferTooSmall
  {
    if steps != [] {
      var before := After(codec, steps[..|steps| - 1]);
      LinesFitTheBuffer(codec, steps[..|steps| - 1]);
      if steps[|steps| - 1] == Pop {
        TakeByteKeepsShort(before.inbound);
      }
    }
  }

  /** With the firmware's parser, what is queued to the computer tells complete lifecycles: the
      queued lines are, one for one, the texts of responses which are errors and metadata around
      whole episodes and the one in progress, and every event and verdict among them is what the
      component returned. */
  lemma QueuedOutputTellsEpisodes(codec: S.Codec, steps: seq<Step>)
    returns (responses: seq<S.Response>, episodes: seq<S.Episode>, events: seq<string>)
    requires AllAllowed(codec, steps) && forall line :: S.FromParser(codec.parse(line))
    ensures var d := After(codec, steps);
            && Rendered(codec, d.transmitter.accepted, responses)
            && S.Lifecycle(responses) == S.Transcript(episodes) + S.InProgress(d.session.active, events)
            && S.Called(d.session.calls, episodes, d.session.active)
            && C.Unasked(responses) == C.Reports(d.heard) && d.transmitter.sent <= d.transmitter.accepted
  {
    EveryRequestAnsweredOnce(codec, steps);
    var d := After(codec, steps);
    HeardIsParseable(codec, d.heard, d.log);
    C.ReportsAreOutcomes(d.heard);
    episodes, events := S.EveryRunTellsEpisodes(d.heard);
    responses := d.session.said;
  }

  // ---------------------------------------------------------------- the main loop is a run

  function Run(d: Device, codec: S.Codec, steps: seq<Step>): (e: Device)
    requires T.Usable(d.transmitter)
    ensures T.Usable(e.transmitter)
  {
    if steps == [] then d else Take(Run(d, codec, steps[..|steps| - 1]), codec, steps[|steps| - 1])
  }

  lemma {:induction false} RunAppend(d: Device, codec: S.Codec, a: seq<Step>, b: seq<Step>)
    requires T.Usable(d.transmitter)
    ensures Run(d, codec, a + b) == Run(Run(d, codec, a), codec, b)
  {
    if b == [] {
      assert a + b == a;
    } else {
      assert (a + b)[..|a + b| - 1] == a + b[..|b| - 1];
      RunAppend(d, codec, a, b[..|b| - 1]);
    }
  }

  lemma RunOne(d: Device, codec: S.Codec, step: Step)
    requires T.Usable(d.transmitter)
    ensures Run(d, codec, [step]) == Take(d, codec, step)
  {
    assert [step][..0] == [];
  }

  predicate SameReceiver(d: Device, e: Device) {
    e.inbound.receiver == d.inbound.receiver && e.stream == d.stream
  }

  /** The request loop and the component step of one session turn are such steps. */
  lemma {:induction false} DrainIsAnswers(d: Device, codec: S.Codec) returns (steps: seq<Step>)
    requires T.Usable(d.transmitter)
    ensures forall i :: 0 <= i < |steps| ==> steps[i] == Answer
    ensures SameReceiver(d, Run(d, codec, steps))
    ensures Service(Run(d, codec, steps)) == S.DrainRequests(Service(d), codec)
    decreases |d.inbound.inbox.lines|
  {
    if S.RequestReady(Service(d)) {
      var rest := DrainIsAnswers(TakeAnswer(d, codec), codec);
      RunOne(d, codec, Answer);
      RunAppend(d, codec, [Answer], rest);
      steps := [Answer] + rest;
    } else {
      steps := [];
    }
  }

  lemma SessionTurnIsARun(d: Device, codec: S.Codec, outcome: S.Outcome) returns (steps: seq<Step>)
    requires T.Usable(d.transmitter)
    ensures steps != [] && steps[|steps| - 1] == Advance(outcome)
    ensures forall i :: 0 <= i < |steps| - 1 ==> steps[i] == Answer
    ensures SameReceiver(d, Run(d, codec, steps))
    ensures Service(Run(d, codec, steps)) == S.ServiceTurn(Service(d), codec, outcome)
  {
    var answers := DrainIsAnswers(d, codec);
    steps := answers + [Advance(outcome)];
    RunAppend(d, codec, answers, [Advance(outcome)]);
    RunOne(Run(d, codec, answers), codec, Advance(outcome));
  }

  function Arrivals(packet: seq<byte>): seq<Step> {
    seq(|packet|, i requires 0 <= i < |packet| => Arrival(packet[i]))
  }

  lemma {:induction false} PacketArrives(d: Device, codec: S.Codec, packet: seq<byte>)
    requires T.Usable(d.transmitter)
    ensures var e := Run(d, codec, Arrivals(packet));
            e == d.(inbound := I.Receive(d.inbound, packet), stream := d.stream + packet)
  {
    if packet != [] {
      var before, b := packet[..|packet| - 1], packet[|packet| - 1];
      PacketArrives(d, codec, before);
      assert Arrivals(packet)[..|packet| - 1] == Arrivals(before);
      assert [b][..0] == [] &&
             R.StoreAll(I.Receive(d.inbound, before).receiver.ring, []) == I.Receive(d.inbound, before).receiver.ring;
      assert d.stream + before + [b] == d.stream + packet;
    } else {
      assert d.stream + [] == d.stream;
    }
  }

  /** Only the receiving side has moved. */
  predicate OnlyReceived(d: Device, e: Device) {
    e == d.(inbound := e.inbound, stream := e.stream) && d.stream <= e.stream
  }

  /** One pop and the packet that arrives after it. */
  function PopAndPacket(packet: seq<byte>): seq<Step> {
    [Pop] + Arrivals(packet)
  }

  lemma PopAndPacketRuns(d: Device, codec: S.Codec, packet: seq<byte>)
    requires T.Usable(d.transmitter)
    ensures var e := Run(d, codec, PopAndPacket(packet));
            e == d.(inbound := I.Receive(I.TakeByte(d.inbound), packet), stream := d.stream + packet)
  {
    RunOne(d, codec, Pop);
    RunAppend(d, codec, [Pop], Arrivals(packet));
    PacketArrives(Take(d, codec, Pop), codec, packet);
  }

  lemma ReceivedOn(d: Device, codec: S.Codec, first: seq<Step>, rest: seq<Step>)
    requires T.Usable(d.transmitter) && OnlyReceived(d, Run(d, codec, first))
    requires OnlyReceived(Run(d, codec, first), Run(Run(d, codec, first), codec, rest))
    ensures Run(d, codec, first + rest) == Run(Run(d, codec, first), codec, rest)
    ensures OnlyReceived(d, Run(d, codec, first + rest))
  {
    RunAppend(d, codec, first, rest);
  }

  /** So is every execution of the pop loop, whatever interrupts deliver between the pops. */
  lemma {:induction false} PopLoopIsARun(d: Device, codec: S.Codec, arrivals: seq<seq<byte>>) returns (steps: seq<Step>)
    requires T.Usable(d.transmitter)
    ensures forall i :: 0 <= i < |steps| ==> steps[i] == Pop || (steps[i].Arrival? && arrivals != [])
    ensures OnlyReceived(d, Run(d, codec, steps))
    ensures Run(d, codec, steps).inbound == I.ProcessReceived(d.inbound, arrivals)
    decreases |arrivals|, |d.inbound.receiver.ring.bytes|
  {
    steps := [Pop];
    RunOne(d, codec, Pop);
    if d.inbound.receiver.ring.bytes != [] {
      if arrivals == [] {
        var rest := PopLoopIsARun(Take(d, codec, Pop), codec, []);
        ReceivedOn(d, codec, [Pop], rest);
        steps := [Pop] + rest;
      } else {
        var first := PopAndPacket(arrivals[0]);
        PopAndPacketRuns(d, codec, arrivals[0]);
        var rest := PopLoopIsARun(Run(d, codec, first), codec, arrivals[1..]);
        ReceivedOn(d, codec, first, rest);
        steps := first + rest;
      }
    }
  }
}
