/** One turn of session_protocol_process as a whole: which lines it takes, what it says and what
    it queues. */
module ServiceTurns {
  import opened Options
  import opened Bytes
  import D = RequestDocuments
  import I = TransportModel
  import opened SessionModel
  import T = TransmitPath

  function Parses(codec: Codec, lines: seq<Line>): (requests: seq<Option<D.Request>>)
    ensures |requests| == |lines|
  {
    seq(|lines|, i requires 0 <= i < |lines| => codec.parse(lines[i]))
  }

  /** The session after these requests, oldest first. */
  function HeardAll(s: Session, requests: seq<Option<D.Request>>): Session
    decreases |requests|
  {
    if requests == [] then s else HeardAll(Heard(s, requests[0]), requests[1..])
  }

  /** The texts of these responses that the transport takes. */
  function Texts(codec: Codec, responses: seq<Response>): seq<Line> {
    if responses == [] then []
    else
      var text := codec.render(responses[0]);
      (if text.Some? && T.Queueable(text.value) then [text.value + [LF]] else []) + Texts(codec, responses[1..])
  }

  /** `w` has added to what `v` said, and queued the texts of what it added. */
  ghost predicate Spoken(v: Service, w: Service, codec: Codec) {
    && v.session.said <= w.session.said
    && w.transmitter.accepted == v.transmitter.accepted + Texts(codec, w.session.said[|v.session.said|..])
  }

  lemma {:induction false} HeardAllSays(s: Session, requests: seq<Option<D.Request>>)
    ensures s.said <= HeardAll(s, requests).said && |HeardAll(s, requests).said| == |s.said| + |requests|
    decreases |requests|
  {
    if requests != [] {
      HeardAllSays(Heard(s, requests[0]), requests[1..]);
    }
  }

  lemma SaidOne(v: Service, w: Service, codec: Codec, r: Response)
    requires Usable(v) && T.HasRoom(v.transmitter)
    requires w.session.said == v.session.said + [r] && w.transmitter == Queued(v.transmitter, codec.render(r))
    ensures Spoken(v, w, codec)
  {
    assert w.session.said[|v.session.said|..] == [r] && [r][1..] == [];
    assert v.transmitter.accepted + [] == v.transmitter.accepted;
  }

  lemma SaidNothing(v: Service, w: Service, codec: Codec)
    requires w.session.said == v.session.said && w.transmitter == v.transmitter
    ensures Spoken(v, w, codec)
  {
    assert w.session.said[|v.session.said|..] == [] && v.transmitter.accepted + [] == v.transmitter.accepted;
  }

  lemma {:induction false} TextsAppend(codec: Codec, a: seq<Response>, b: seq<Response>)
    ensures Texts(codec, a + b) == Texts(codec, a) + Texts(codec, b)
    decreases |a|
  {
    if a == [] {
      assert a + b == b;
    } else {
      assert (a + b)[0] == a[0] && (a + b)[1..] == a[1..] + b;
      TextsAppend(codec, a[1..], b);
    }
  }

  lemma SlicesJoin(a: seq<Response>, b: seq<Response>, c: seq<Response>)
    requires a <= b && b <= c
    ensures a <= c && c[|a|..] == b[|a|..] + c[|b|..]
  {
  }

  lemma LinesJoin(a: seq<Line>, b: seq<Line>, c: seq<Line>)
    ensures (a + b) + c == a + (b + c)
  {
  }

  lemma SpokenOn(v: Service, w: Service, x: Service, codec: Codec)
    requires Spoken(v, w, codec) && Spoken(w, x, codec)
    ensures Spoken(v, x, codec)
  {
    var first, second := w.session.said[|v.session.said|..], x.session.said[|w.session.said|..];
    SlicesJoin(v.session.said, w.session.said, x.session.said);
    TextsAppend(codec, first, second);
    LinesJoin(v.transmitter.accepted, Texts(codec, first), Texts(codec, second));
  }

  /** The loop has taken the `n` oldest waiting lines, heard them in order and said one response
      for each; it ends with both transmit slots taken, no line waiting, or an oldest line that
      does not fit the buffer. */
  ghost predicate Drained(v: Service, w: Service, codec: Codec, n: nat) {
    && n <= |v.inbox.lines| && w.inbox == v.inbox.(lines := v.inbox.lines[n..])
    && w.session == HeardAll(v.session, Parses(codec, v.inbox.lines[..n]))
    && |w.session.said| == |v.session.said| + n && Spoken(v, w, codec)
    && (w.transmitter.count == 2 || w.inbox.lines == [] || |w.inbox.lines[0]| > 4096)
  }

  lemma {:induction false} DrainTakesTheOldest(v: Service, codec: Codec) returns (n: nat)
    requires Usable(v)
    ensures Drained(v, DrainRequests(v, codec), codec, n)
    decreases |v.inbox.lines|
  {
    if RequestReady(v) {
      var lines, next := v.inbox.lines, HandleLine(v, codec);
      n := DrainTakesTheOldest(next, codec);
      SaidOne(v, next, codec, Answer(v.session, codec.parse(lines[0])).1);
      SpokenOn(v, next, DrainRequests(v, codec), codec);
      assert lines[1..][n..] == lines[n + 1..];
      assert Parses(codec, lines[..n + 1])[1..] == Parses(codec, lines[1..][..n]);
      n := n + 1;
    } else {
      n := 0;
      SaidNothing(v, v, codec);
    }
  }

  /** Then, if a slot is still free and a test is active, its process function is called once. */
  ghost predicate Ticked(v: Service, w: Service, codec: Codec, outcome: Outcome) {
    && w.inbox == v.inbox && Spoken(v, w, codec)
    && w.session == if v.transmitter.count < 2 && v.session.active.Some? then Advanced(v.session, outcome)
                    else v.session
  }

  lemma AdvanceTicks(v: Service, codec: Codec, outcome: Outcome)
    requires Usable(v)
    ensures Ticked(v, AdvanceTest(v, codec, outcome), codec, outcome)
  {
    var w := AdvanceTest(v, codec, outcome);
    if T.HasRoom(v.transmitter) && v.session.active.Some? && Advance(v.session, outcome).1.Some? {
      SaidOne(v, w, codec, Advance(v.session, outcome).1.value);
    } else {
      SaidNothing(v, w, codec);
    }
  }

  /** A whole turn. */
  lemma TurnServes(v: Service, codec: Codec, outcome: Outcome) returns (n: nat)
    requires Usable(v)
    ensures Drained(v, DrainRequests(v, codec), codec, n)
    ensures Ticked(DrainRequests(v, codec), ServiceTurn(v, codec, outcome), codec, outcome)
    ensures Spoken(v, ServiceTurn(v, codec, outcome), codec)
  {
    n := DrainTakesTheOldest(v, codec);
    AdvanceTicks(DrainRequests(v, codec), codec, outcome);
    SpokenOn(v, DrainRequests(v, codec), ServiceTurn(v, codec, outcome), codec);
  }
}
