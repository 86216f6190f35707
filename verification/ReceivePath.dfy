/** The receive half of the USB transport: an interrupt fills a ring of 512 slots (511
    usable bytes), the main loop pops one byte at a time and frames it.  A run is any
    interleaving of the two. */
module ReceivePath {
  import opened Bytes
  import F = Framing

  const RING_SLOTS: nat := 512
  const RING_ROOM: nat := 511

  /** The ring and its overflow flag; `arrived` is the history of the bus, with a Gap for
      every byte that found the ring full. */
  datatype Ring = Ring(bytes: seq<byte>, overflowPending: bool, dropped: uint32, arrived: seq<F.Symbol>)

  /** `framer.lines` are the lines handed to the line queue. */
  datatype Receiver = Receiver(ring: Ring, framer: F.Framer)

  datatype Event = Arrival(value: byte) | Pop

  const IDLE := Receiver(Ring([], false, 0, []), F.START)

  /** One byte of cdc_receive. */
  function Store(ring: Ring, b: byte): Ring {
    if |ring.bytes| == RING_ROOM then
      ring.(overflowPending := true, dropped := Increment(ring.dropped), arrived := ring.arrived + [F.Gap])
    else
      ring.(bytes := ring.bytes + [b], arrived := ring.arrived + [F.Data(b)])
  }

  function StoreAll(ring: Ring, packet: seq<byte>): Ring {
    if packet == [] then ring
    else Store(StoreAll(ring, packet[..|packet| - 1]), packet[|packet| - 1])
  }

  /** A pop takes the oldest byte, if any, and always the flag. */
  function Popped(ring: Ring): Ring {
    ring.(overflowPending := false, bytes := if ring.bytes == [] then [] else ring.bytes[1..])
  }

  function Arrive(r: Receiver, b: byte): Receiver {
    r.(ring := Store(r.ring, b))
  }

  function Heed(r: Receiver): F.Framer {
    if r.ring.overflowPending then F.Discard(r.framer) else r.framer
  }

  /** One turn of the main loop: the pending flag is taken with the oldest byte. */
  function PopAndFrame(r: Receiver): Receiver {
    Receiver(Popped(r.ring), if r.ring.bytes == [] then Heed(r) else F.Consume(Heed(r), r.ring.bytes[0]))
  }

  function Handle(r: Receiver, e: Event): Receiver {
    match e
    case Arrival(b) => Arrive(r, b)
    case Pop => PopAndFrame(r)
  }

  function RunFrom(r: Receiver, events: seq<Event>): Receiver {
    if events == [] then r else Handle(RunFrom(r, events[..|events| - 1]), events[|events| - 1])
  }

  function After(events: seq<Event>): Receiver {
    RunFrom(IDLE, events)
  }

  lemma {:induction false} RunFromAppend(r: Receiver, a: seq<Event>, b: seq<Event>)
    ensures RunFrom(r, a + b) == RunFrom(RunFrom(r, a), b)
  {
    if b == [] {
      assert a + b == a;
    } else {
      assert (a + b)[..|a + b| - 1] == a + b[..|b| - 1];
      RunFromAppend(r, a, b[..|b| - 1]);
    }
  }

  lemma RunFromOne(r: Receiver, e: Event)
    ensures RunFrom(r, [e]) == Handle(r, e)
  {
    assert [e][..0] == [];
  }

  // ---------------------------------------------------------------- the overflow flag

  /** In every interleaving a pending overflow means a full ring. */
  lemma {:induction false} OverflowMeansFull(events: seq<Event>)
    ensures After(events).ring.overflowPending ==> |After(events).ring.bytes| == 511
    ensures |After(events).ring.bytes| <= 511
  {
    if events != [] {
      OverflowMeansFull(events[..|events| - 1]);
    }
  }

  /** So the discard after the pop loop never happens: finding the ring empty changes nothing. */
  lemma EmptyPopChangesNothing(events: seq<Event>)
    requires After(events).ring.bytes == []
    ensures PopAndFrame(After(events)) == After(events)
  {
  }

  function Gaps(history: seq<F.Symbol>): nat {
    if history == [] then 0
    else Gaps(history[..|history| - 1]) + if history[|history| - 1].Gap? then 1 else 0
  }

  /** Every byte that arrives is stored or, in order, recorded as a gap and counted. */
  lemma {:induction false} EveryArrivalIsCounted(events: seq<Event>)
    ensures |After(events).ring.arrived| == ArrivalCount(events)
    ensures After(events).ring.dropped == Counted(Gaps(After(events).ring.arrived))
  {
    if events != [] {
      var before, last := After(events[..|events| - 1]), events[|events| - 1];
      EveryArrivalIsCounted(events[..|events| - 1]);
      if last.Arrival? {
        assert Store(before.ring, last.value).arrived[..|before.ring.arrived|] == before.ring.arrived;
      }
    }
  }

  function ArrivalCount(events: seq<Event>): nat {
    if events == [] then 0
    else ArrivalCount(events[..|events| - 1]) + if events[|events| - 1].Arrival? then 1 else 0
  }

  // ---------------------------------------------------------------- what gaps do to lines

  /** The framer state once the resident bytes have been popped. */
  function Drain(r: Receiver): F.Framer {
    F.Run(Heed(r), F.Symbols(r.ring.bytes))
  }

  /** A receiver that frames on arrival and discards the broken line at the gap itself. */
  function Ideal(r: Receiver): F.Framer {
    F.Run(F.START, r.ring.arrived)
  }

  predicate SameFraming(f: F.Framer, g: F.Framer) {
    f.line == g.line && f.discarding == g.discarding && f.lines == g.lines
  }

  lemma {:induction false} SameFramingRun(f: F.Framer, g: F.Framer, stream: seq<F.Symbol>)
    requires SameFraming(f, g)
    ensures SameFraming(F.Run(f, stream), F.Run(g, stream))
  {
    if stream != [] {
      SameFramingRun(f, g, stream[..|stream| - 1]);
    }
  }

  lemma RunByte(f: F.Framer, data: seq<byte>, b: byte)
    ensures F.Run(f, F.Symbols(data + [b])) == F.Consume(F.Run(f, F.Symbols(data)), b)
  {
    assert F.Symbols(data + [b]) == F.Symbols(data) + [F.Data(b)];
    F.RunSnoc(f, F.Symbols(data), F.Data(b));
  }

  /** Popping never changes where the resident bytes lead. */
  lemma PopKeepsDrain(r: Receiver)
    ensures Drain(PopAndFrame(r)) == Drain(r)
  {
    if r.ring.bytes != [] {
      var head, tail := F.Symbols([r.ring.bytes[0]]), F.Symbols(r.ring.bytes[1..]);
      assert F.Symbols(r.ring.bytes) == head + tail;
      assert head == [F.Data(r.ring.bytes[0])];
      F.RunAppend(Heed(r), head, tail);
      F.RunOne(Heed(r), F.Data(r.ring.bytes[0]));
    }
  }

  /** Bytes without an LF never complete a line, and leave a discarding framer discarding. */
  lemma {:induction false} RunWithoutLf(f: F.Framer, data: seq<byte>)
    requires LF !in data
    ensures F.Run(f, F.Symbols(data)).lines == f.lines
    ensures f.discarding ==> F.Run(f, F.Symbols(data)).discarding && F.Run(f, F.Symbols(data)).line == f.line
  {
    if data != [] {
      var before, b := data[..|data| - 1], data[|data| - 1];
      assert data == before + [b];
      RunWithoutLf(f, before);
      RunByte(f, before, b);
    }
  }

  /** Discarding at the oldest resident byte and discarding at the gap are the same thing
      as long as no LF lies between them. */
  lemma EarlyDiscard(r: Receiver)
    requires LF !in r.ring.bytes
    ensures SameFraming(F.Run(F.Discard(r.framer), F.Symbols(r.ring.bytes)), F.Discard(Drain(r)))
  {
    RunWithoutLf(F.Discard(r.framer), r.ring.bytes);
    RunWithoutLf(Heed(r), r.ring.bytes);
  }

  /** Every gap of the run opens while no LF is resident. */
  ghost predicate CleanGaps(events: seq<Event>) {
    events == [] ||
    (var before, e := After(events[..|events| - 1]), events[|events| - 1];
     && CleanGaps(events[..|events| - 1])
     && (e.Arrival? && |before.ring.bytes| == RING_ROOM ==> LF !in before.ring.bytes))
  }

  /** The run behaves like the ideal receiver that discards at the gap. */
  lemma {:induction false} CleanRunIsIdeal(events: seq<Event>)
    requires CleanGaps(events)
    ensures SameFraming(Drain(After(events)), Ideal(After(events)))
  {
    if events == [] {
      assert F.Symbols([]) == [];
    } else {
      var r, e := After(events[..|events| - 1]), events[|events| - 1];
      CleanRunIsIdeal(events[..|events| - 1]);
      if e == Pop {
        PopKeepsDrain(r);
      } else if |r.ring.bytes| == RING_ROOM {
        EarlyDiscard(r);
        F.RunSnoc(F.START, r.ring.arrived, F.Gap);
      } else {
        RunByte(Heed(r), r.ring.bytes, e.value);
        F.RunSnoc(F.START, r.ring.arrived, F.Data(e.value));
      }
    }
  }

  lemma {:induction false} RunExtendsLines(f: F.Framer, stream: seq<F.Symbol>)
    ensures f.lines <= F.Run(f, stream).lines
  {
    if stream != [] {
      RunExtendsLines(f, stream[..|stream| - 1]);
    }
  }

  /** In such a run the delivered lines are, in order, the gap-free segments of the bus
      history, and all of them once the ring is empty. */
  lemma CleanRunDeliversSegments(events: seq<Event>, segments: seq<seq<F.Symbol>>, rest: seq<F.Symbol>)
    requires CleanGaps(events)
    requires After(events).ring.arrived == F.Join(segments) + rest
    requires F.Unterminated(rest) && forall s :: s in segments ==> F.Unterminated(s)
    ensures After(events).framer.lines <= F.Delivered(segments)
    ensures After(events).ring.bytes == [] ==> After(events).framer.lines == F.Delivered(segments)
  {
    var r := After(events);
    CleanRunIsIdeal(events);
    F.RunIsSplit(segments, rest);
    RunExtendsLines(Heed(r), F.Symbols(r.ring.bytes));
    OverflowMeansFull(events);
    assert r.ring.bytes == [] ==> F.Symbols(r.ring.bytes) == [];
  }

  // ---------------------------------------------------------------- one gap, whatever the others

  /** The stored bytes of a stretch of bus history. */
  function Stored(history: seq<F.Symbol>): seq<byte> {
    if history == [] then []
    else
      var last := history[|history| - 1];
      Stored(history[..|history| - 1]) + (if last.Data? then [last.value] else [])
  }

  /** `data[p..q]` is a whole line: between two LFs, with none inside. */
  predicate WholeLine(data: seq<byte>, p: nat, q: nat) {
    0 < p <= q < |data| && data[p - 1] == LF && data[q] == LF && LF !in data[p..q]
  }

  ghost predicate LineOf(line: Line, data: seq<byte>) {
    exists p: nat, q: nat :: WholeLine(data, p, q) && line == F.StripCr(data[p..q])
  }

  ghost predicate NewLines(earlier: seq<Line>, lines: seq<Line>, data: seq<byte>) {
    earlier <= lines && forall i :: |earlier| <= i < |lines| ==> LineOf(lines[i], data)
  }

  /** The line being collected starts after an LF of `data` and runs to its end. */
  predicate OpenLine(line: Line, data: seq<byte>) {
    && |line| < |data| && data[|data| - |line| - 1] == LF && data[|data| - |line|..] == line && LF !in line
  }

  /** What the framer has made of the bytes `popped` since the gap. */
  ghost predicate Framed(f: F.Framer, earlier: seq<Line>, popped: seq<byte>) {
    && NewLines(earlier, f.lines, popped)
    && (if f.discarding then f.line == [] else OpenLine(f.line, popped))
  }

  /** `since` holds the bytes stored since the gap; the `k` oldest resident ones are from
      before it, and until they are gone the flag is pending or has been heeded. */
  ghost predicate SinceGap(r: Receiver, earlier: seq<Line>, since: seq<byte>, k: nat) {
    && k <= |r.ring.bytes| && |r.ring.bytes| - k <= |since| && LF !in r.ring.bytes[..k]
    && since == since[..|since| - (|r.ring.bytes| - k)] + r.ring.bytes[k..]
    && (if k > 0 then
          && |r.ring.bytes| - k == |since| && r.framer.lines == earlier
          && Heed(r).discarding && Heed(r).line == []
        else Framed(r.framer, earlier, since[..|since| - |r.ring.bytes|]))
  }

  lemma LineOfLonger(line: Line, data: seq<byte>, rest: seq<byte>)
    requires LineOf(line, data)
    ensures LineOf(line, data + rest)
  {
    var p: nat, q: nat :| WholeLine(data, p, q) && line == F.StripCr(data[p..q]);
    assert (data + rest)[p..q] == data[p..q];
    assert WholeLine(data + rest, p, q);
  }

  lemma NewLinesLonger(earlier: seq<Line>, lines: seq<Line>, data: seq<byte>, b: byte)
    requires NewLines(earlier, lines, data)
    ensures NewLines(earlier, lines, data + [b])
  {
    forall i | |earlier| <= i < |lines| ensures LineOf(lines[i], data + [b]) {
      LineOfLonger(lines[i], data, [b]);
    }
  }

  lemma OpenLineEnds(line: Line, data: seq<byte>)
    requires OpenLine(line, data)
    ensures LineOf(F.StripCr(line), data + [LF])
  {
    var p: nat, q: nat := |data| - |line|, |data|;
    assert (data + [LF])[p..q] == line;
    assert WholeLine(data + [LF], p, q);
  }

  lemma OpenLineGrows(line: Line, data: seq<byte>, b: byte)
    requires OpenLine(line, data) && b != LF
    ensures OpenLine(line + [b], data + [b])
  {
    assert (data + [b])[|data| - |line|..] == data[|data| - |line|..] + [b];
  }

  lemma ConsumeKeepsFramed(f: F.Framer, earlier: seq<Line>, popped: seq<byte>, b: byte)
    requires Framed(f, earlier, popped)
    ensures Framed(F.Consume(f, b), earlier, popped + [b])
  {
    NewLinesLonger(earlier, f.lines, popped, b);
    if !f.discarding {
      if b == LF {
        OpenLineEnds(f.line, popped);
      } else {
        OpenLineGrows(f.line, popped, b);
      }
    }
  }

  /** A byte from before the gap is popped. */
  lemma PopOldByte(r: Receiver, earlier: seq<Line>, since: seq<byte>, k: nat)
    requires SinceGap(r, earlier, since, k) && k > 0
    ensures SinceGap(PopAndFrame(r), earlier, since, k - 1)
  {
    var bytes := r.ring.bytes;
    assert bytes[0] == bytes[..k][0];
    assert bytes[1..][..k - 1] == bytes[..k][1..] && bytes[1..][k - 1..] == bytes[k..];
    assert F.Consume(Heed(r), bytes[0]) == Heed(r);
    assert |since| - (|bytes[1..]| - (k - 1)) == 0 && |since| - (|bytes| - k) == 0;
  }

  /** A byte from after the gap is popped. */
  lemma PopNewByte(r: Receiver, earlier: seq<Line>, since: seq<byte>)
    requires SinceGap(r, earlier, since, 0) && r.ring.bytes != []
    ensures SinceGap(PopAndFrame(r), earlier, since, 0)
  {
    var bytes := r.ring.bytes;
    var n := |since| - |bytes|;
    assert bytes[0..] == bytes && bytes[1..][0..] == bytes[1..];
    assert since[n..][0] == bytes[0];
    assert since[..n + 1] == since[..n] + [bytes[0]];
    assert since[n + 1..] == since[n..][1..];
    assert Framed(Heed(r), earlier, since[..n]);
    ConsumeKeepsFramed(Heed(r), earlier, since[..n], bytes[0]);
  }

  lemma PopKeepsSince(r: Receiver, earlier: seq<Line>, since: seq<byte>, k: nat)
    requires SinceGap(r, earlier, since, k)
    ensures SinceGap(PopAndFrame(r), earlier, since, if k == 0 then 0 else k - 1)
  {
    if k > 0 {
      PopOldByte(r, earlier, since, k);
    } else if r.ring.bytes != [] {
      PopNewByte(r, earlier, since);
    }
  }

  lemma ArrivalKeepsSince(r: Receiver, earlier: seq<Line>, since: seq<byte>, k: nat, b: byte)
    requires SinceGap(r, earlier, since, k) && |r.ring.bytes| != RING_ROOM
    ensures SinceGap(Arrive(r, b), earlier, since + [b], k)
  {
    var bytes, n := r.ring.bytes, |since| - (|r.ring.bytes| - k);
    assert (bytes + [b])[..k] == bytes[..k] && (bytes + [b])[k..] == bytes[k..] + [b];
    assert (since + [b])[n..] == since[n..] + [b];
    assert (since + [b])[..n] == since[..n];
  }

  lemma LossKeepsSince(r: Receiver, earlier: seq<Line>, since: seq<byte>, k: nat, b: byte)
    requires SinceGap(r, earlier, since, k) && |r.ring.bytes| == RING_ROOM
    ensures SinceGap(Arrive(r, b), earlier, since, k)
  {
  }

  lemma StoredMore(ring: Ring, n: nat, b: byte)
    requires n <= |ring.arrived|
    ensures ring.arrived <= Store(ring, b).arrived
    ensures Stored(Store(ring, b).arrived[n..]) ==
            if |ring.bytes| == RING_ROOM then Stored(ring.arrived[n..]) else Stored(ring.arrived[n..]) + [b]
  {
    var history, next := ring.arrived[n..], Store(ring, b).arrived[n..];
    assert next[..|history|] == history && |next| == |history| + 1;
    assert Stored(history) + [] == Stored(history);
  }

  /** The history from position `n` on is what has happened since the gap. */
  ghost predicate SinceGapAt(s: Receiver, earlier: seq<Line>, n: nat, k: nat) {
    n <= |s.ring.arrived| && SinceGap(s, earlier, Stored(s.ring.arrived[n..]), k)
  }

  lemma GapOpens(r: Receiver, lost: byte)
    requires |r.ring.bytes| == RING_ROOM && LF !in r.ring.bytes
    ensures SinceGapAt(Arrive(r, lost), r.framer.lines, |r.ring.arrived|, RING_ROOM)
  {
    StoredMore(r.ring, |r.ring.arrived|, lost);
    assert r.ring.arrived[|r.ring.arrived|..] == [];
    assert r.ring.bytes[..RING_ROOM] == r.ring.bytes && r.ring.bytes[RING_ROOM..] == [];
  }

  /** How many of the bytes resident at a gap are left after `events`. */
  function OldLeft(events: seq<Event>): nat {
    if events == [] then RING_ROOM
    else
      var k := OldLeft(events[..|events| - 1]);
      if events[|events| - 1].Pop? && k > 0 then k - 1 else k
  }

  lemma HandleKeepsSince(s: Receiver, earlier: seq<Line>, n: nat, k: nat, e: Event)
    requires SinceGapAt(s, earlier, n, k)
    ensures SinceGapAt(Handle(s, e), earlier, n, if e.Pop? && k > 0 then k - 1 else k)
  {
    match e
    case Pop => PopKeepsSince(s, earlier, Stored(s.ring.arrived[n..]), k);
    case Arrival(b) =>
      StoredMore(s.ring, n, b);
      if |s.ring.bytes| == RING_ROOM {
        LossKeepsSince(s, earlier, Stored(s.ring.arrived[n..]), k, b);
      } else {
        ArrivalKeepsSince(s, earlier, Stored(s.ring.arrived[n..]), k, b);
      }
  }

  lemma {:induction false} SinceGapAlways(r: Receiver, earlier: seq<Line>, n: nat, after: seq<Event>)
    returns (since: seq<byte>)
    requires SinceGapAt(r, earlier, n, RING_ROOM)
    ensures n <= |RunFrom(r, after).ring.arrived| && since == Stored(RunFrom(r, after).ring.arrived[n..])
    ensures SinceGap(RunFrom(r, after), earlier, since, OldLeft(after))
  {
    if after != [] {
      var before := after[..|after| - 1];
      since := SinceGapAlways(r, earlier, n, before);
      HandleKeepsSince(RunFrom(r, before), earlier, n, OldLeft(before), after[|after| - 1]);
    }
    since := Stored(RunFrom(r, after).ring.arrived[n..]);
  }

  lemma {:induction false} HistoryGrows(r: Receiver, events: seq<Event>)
    ensures r.ring.arrived <= RunFrom(r, events).ring.arrived
  {
    if events != [] {
      HistoryGrows(r, events[..|events| - 1]);
    }
  }

  lemma SinceGapMeansNewLines(s: Receiver, earlier: seq<Line>, since: seq<byte>, k: nat)
    requires SinceGap(s, earlier, since, k)
    ensures NewLines(earlier, s.framer.lines, since)
  {
    if k == 0 {
      var n := |since| - |s.ring.bytes|;
      forall i | |earlier| <= i < |s.framer.lines| ensures LineOf(s.framer.lines[i], since) {
        LineOfLonger(s.framer.lines[i], since[..n], since[n..]);
        assert since[..n] + since[n..] == since;
      }
    }
  }

  /** A gap that opens with no LF resident is never spanned, whatever gaps there were before
      and whatever follows: every line delivered from then on is, but for its stripped CR, a
      whole LF-to-LF stretch of the bytes stored since the gap. */
  lemma NoLineSpansAGap(before: seq<Event>, lost: byte, after: seq<Event>)
    requires |After(before).ring.bytes| == RING_ROOM && LF !in After(before).ring.bytes
    ensures var r, s := After(before), After(before + [Arrival(lost)] + after);
            && r.ring.arrived <= s.ring.arrived
            && NewLines(r.framer.lines, s.framer.lines, Stored(s.ring.arrived[|r.ring.arrived|..]))
  {
    var r := After(before);
    RunFromAppend(IDLE, before + [Arrival(lost)], after);
    RunFromAppend(IDLE, before, [Arrival(lost)]);
    RunFromOne(r, Arrival(lost));
    GapOpens(r, lost);
    var since := SinceGapAlways(Arrive(r, lost), r.framer.lines, |r.ring.arrived|, after);
    HistoryGrows(Arrive(r, lost), after);
    var s := RunFrom(Arrive(r, lost), after);
    SinceGapMeansNewLines(s, r.framer.lines, since, OldLeft(after));
  }

  // ---------------------------------------------------------------- exactly when a gap is harmless

  /** Once an LF has passed, the framer collects again; short data cannot overflow it. */
  lemma {:induction false} RunWithLf(f: F.Framer, data: seq<byte>)
    requires f.line == []
    requires |data| <= F.MAX_LINE_LENGTH
    ensures var g := F.Run(f, F.Symbols(data));
            && |g.line| <= |data| && (g.discarding ==> g.line == [])
            && (LF in data ==> !g.discarding && |g.line| < |data|)
  {
    if data != [] {
      var before, b := data[..|data| - 1], data[|data| - 1];
      assert data == before + [b];
      RunWithLf(f, before);
      RunByte(f, before, b);
    }
  }

  lemma FinishLine(f: F.Framer, word: seq<byte>)
    requires |f.line| + |word| <= F.MAX_LINE_LENGTH && LF !in word && |word| <= 1
    ensures F.Run(f, F.Symbols(word + [LF])).lines ==
            if f.discarding then f.lines else f.lines + [F.StripCr(f.line + word)]
  {
    RunByte(f, word, LF);
    if word == [] {
      assert F.Symbols(word) == [] && f.line + word == f.line;
    } else {
      assert word == [] + [word[0]] && F.Symbols([]) == [];
      RunByte(f, [], word[0]);
      assert F.Run(f, F.Symbols(word)) == F.Consume(f, word[0]);
      assert f.line + word == f.line + [word[0]];
    }
  }

  function Arrivals(data: seq<byte>): seq<Event> {
    seq(|data|, i requires 0 <= i < |data| => Arrival(data[i]))
  }

  function Pops(n: nat): seq<Event> {
    seq(n, _ => Pop)
  }

  lemma {:induction false} RunArrivals(r: Receiver, data: seq<byte>)
    requires |r.ring.bytes| + |data| <= RING_ROOM
    ensures RunFrom(r, Arrivals(data)) ==
            r.(ring := r.ring.(bytes := r.ring.bytes + data, arrived := r.ring.arrived + F.Symbols(data)))
  {
    if data == [] {
      assert r.ring.bytes + data == r.ring.bytes && r.ring.arrived + F.Symbols(data) == r.ring.arrived;
    } else {
      var before, b := data[..|data| - 1], data[|data| - 1];
      RunArrivals(r, before);
      assert Arrivals(data)[..|data| - 1] == Arrivals(before);
      assert r.ring.bytes + before + [b] == r.ring.bytes + data;
      assert r.ring.arrived + F.Symbols(before) + [F.Data(b)] == r.ring.arrived + F.Symbols(data);
    }
  }

  /** Popping removes the oldest bytes and the flag, and keeps where the rest leads. */
  lemma {:induction false} RunPops(r: Receiver, n: nat)
    ensures var s := RunFrom(r, Pops(n));
            && |s.ring.bytes| == (if n <= |r.ring.bytes| then |r.ring.bytes| - n else 0)
            && s.ring.arrived == r.ring.arrived && Drain(s) == Drain(r)
            && (n > 0 ==> !s.ring.overflowPending)
  {
    if n > 0 {
      RunPops(r, n - 1);
      assert Pops(n)[..n - 1] == Pops(n - 1);
      PopKeepsDrain(RunFrom(r, Pops(n - 1)));
    }
  }

  /** Once everything is popped the framer is where the resident bytes led. */
  lemma RunAllPops(r: Receiver, n: nat)
    requires |r.ring.bytes| <= n && n > 0
    ensures var s := RunFrom(r, Pops(n));
            s.ring.bytes == [] && s.ring.arrived == r.ring.arrived && s.framer == Drain(r) && !s.ring.overflowPending
  {
    RunPops(r, n);
    assert F.Symbols([]) == [];
  }

  /** Draining and then receiving a little more frames exactly that. */
  lemma DrainThenArrive(r: Receiver, data: seq<byte>)
    requires |r.ring.bytes| <= RING_ROOM && |data| <= RING_ROOM
    ensures Drain(RunFrom(r, Pops(RING_ROOM) + Arrivals(data))) == F.Run(Drain(r), F.Symbols(data))
  {
    RunFromAppend(r, Pops(RING_ROOM), Arrivals(data));
    RunAllPops(r, RING_ROOM);
    RunArrivals(RunFrom(r, Pops(RING_ROOM)), data);
    assert [] + data == data;
  }

  function Filler(): (filler: seq<byte>)
    ensures |filler| == RING_ROOM && LF !in filler
  {
    seq(RING_ROOM, _ => 0)
  }

  /** The receiver that frames what is resident and discards the broken line at the gap
      itself.  The places in the ring stay taken, by bytes a discarding framer ignores. */
  function Mended(r: Receiver): Receiver {
    Receiver(r.ring.(bytes := Filler(), overflowPending := false), F.Discard(Drain(r)))
  }

  /** A gap at `r` followed by `after`, any arrivals, pops and further losses, completes the
      same lines as if the broken line had been discarded at the gap. */
  ghost predicate GapIsHarmless(r: Receiver, lost: byte, after: seq<Event>) {
    Drain(RunFrom(Arrive(r, lost), after)).lines == Drain(RunFrom(Mended(r), after)).lines
  }

  /** Real and mended receiver while the `k` oldest places are from before the gap. */
  ghost predicate Matched(a: Receiver, m: Receiver, k: nat) {
    && k <= |a.ring.bytes| == |m.ring.bytes| <= RING_ROOM
    && a.ring.bytes[k..] == m.ring.bytes[k..] && LF !in a.ring.bytes[..k] && LF !in m.ring.bytes[..k]
    && SameFraming(Heed(a), Heed(m)) && (k > 0 ==> Heed(a).discarding && Heed(a).line == [])
    && (if k == RING_ROOM then a.ring.overflowPending
        else a.ring.overflowPending == m.ring.overflowPending && SameFraming(a.framer, m.framer))
  }

  lemma MatchedArrival(a: Receiver, m: Receiver, k: nat, b: byte)
    requires Matched(a, m, k)
    ensures Matched(Arrive(a, b), Arrive(m, b), k)
  {
    var a', m' := Arrive(a, b), Arrive(m, b);
    if |a.ring.bytes| < RING_ROOM {
      assert a'.ring.bytes[k..] == a.ring.bytes[k..] + [b] && m'.ring.bytes[k..] == m.ring.bytes[k..] + [b];
      assert a'.ring.bytes[..k] == a.ring.bytes[..k] && m'.ring.bytes[..k] == m.ring.bytes[..k];
    }
  }

  lemma MatchedPop(a: Receiver, m: Receiver, k: nat)
    requires Matched(a, m, k)
    ensures Matched(PopAndFrame(a), PopAndFrame(m), if k == 0 then 0 else k - 1)
  {
    if a.ring.bytes != [] {
      var x, y := a.ring.bytes, m.ring.bytes;
      if k > 0 {
        assert x[0] == x[..k][0] && y[0] == y[..k][0];
        assert x[1..][k - 1..] == x[k..] && y[1..][k - 1..] == y[k..];
        assert x[1..][..k - 1] == x[..k][1..] && y[1..][..k - 1] == y[..k][1..];
      } else {
        assert x[0..] == x && y[0..] == y;
        assert x == y;
      }
    }
  }

  lemma {:induction false} MatchedRun(a: Receiver, m: Receiver, after: seq<Event>)
    requires Matched(a, m, RING_ROOM)
    ensures Matched(RunFrom(a, after), RunFrom(m, after), OldLeft(after))
  {
    if after != [] {
      var before, e := after[..|after| - 1], after[|after| - 1];
      MatchedRun(a, m, before);
      if e.Pop? {
        MatchedPop(RunFrom(a, before), RunFrom(m, before), OldLeft(before));
      } else {
        MatchedArrival(RunFrom(a, before), RunFrom(m, before), OldLeft(before), e.value);
      }
    }
  }

  lemma RunInTwo(f: F.Framer, data: seq<byte>, k: nat)
    requires k <= |data|
    ensures F.Run(f, F.Symbols(data)) == F.Run(F.Run(f, F.Symbols(data[..k])), F.Symbols(data[k..]))
  {
    assert F.Symbols(data) == F.Symbols(data[..k]) + F.Symbols(data[k..]);
    F.RunAppend(f, F.Symbols(data[..k]), F.Symbols(data[k..]));
  }

  lemma MatchedDrain(a: Receiver, m: Receiver, k: nat)
    requires Matched(a, m, k)
    ensures SameFraming(Drain(a), Drain(m))
  {
    RunInTwo(Heed(a), a.ring.bytes, k);
    RunInTwo(Heed(m), m.ring.bytes, k);
    var f, g := F.Run(Heed(a), F.Symbols(a.ring.bytes[..k])), F.Run(Heed(m), F.Symbols(m.ring.bytes[..k]));
    if k > 0 {
      RunWithoutLf(Heed(a), a.ring.bytes[..k]);
      RunWithoutLf(Heed(m), m.ring.bytes[..k]);
    } else {
      assert F.Symbols([]) == [] && a.ring.bytes[..0] == [] && m.ring.bytes[..0] == [];
    }
    SameFramingRun(f, g, F.Symbols(a.ring.bytes[k..]));
  }

  lemma CleanGapIsHarmless(r: Receiver, lost: byte, after: seq<Event>)
    requires |r.ring.bytes| == RING_ROOM && LF !in r.ring.bytes
    ensures GapIsHarmless(r, lost, after)
  {
    var a, m := Arrive(r, lost), Mended(r);
    RunWithoutLf(Heed(r), r.ring.bytes);
    assert a.ring.bytes[..RING_ROOM] == r.ring.bytes && m.ring.bytes[..RING_ROOM] == Filler();
    assert a.ring.bytes[RING_ROOM..] == [] && m.ring.bytes[RING_ROOM..] == [];
    assert Matched(a, m, RING_ROOM);
    MatchedRun(a, m, after);
    MatchedDrain(RunFrom(a, after), RunFrom(m, after), OldLeft(after));
  }

  /** Everything popped, then `word` and an LF. */
  function Probe(word: seq<byte>): seq<Event> {
    Pops(RING_ROOM) + Arrivals(word + [LF])
  }

  /** The lines a probe finds. */
  lemma ProbeFinds(r: Receiver, lost: byte, word: seq<byte>)
    requires |r.ring.bytes| == RING_ROOM && LF in r.ring.bytes && LF !in word && |word| <= 1
    ensures var actual, ideal := Drain(Arrive(r, lost)), F.Discard(Drain(r));
            && Drain(RunFrom(Arrive(r, lost), Probe(word))).lines == actual.lines + [F.StripCr(actual.line + word)]
            && Drain(RunFrom(Mended(r), Probe(word))).lines == ideal.lines
  {
    var actual, ideal := Drain(Arrive(r, lost)), F.Discard(Drain(r));
    RunWithLf(F.Discard(r.framer), r.ring.bytes);
    DrainThenArrive(Arrive(r, lost), word + [LF]);
    FinishLine(actual, word);
    RunWithoutLf(ideal, Filler());
    DrainThenArrive(Mended(r), word + [LF]);
    FinishLine(Drain(Mended(r)), word);
  }

  /** A gap is harmless for every continuation exactly when no LF is resident as it opens. */
  lemma HarmlessIffNoLfResident(r: Receiver, lost: byte)
    requires |r.ring.bytes| == RING_ROOM
    ensures (forall after :: GapIsHarmless(r, lost, after)) <==> LF !in r.ring.bytes
  {
    if LF !in r.ring.bytes {
      forall after ensures GapIsHarmless(r, lost, after) {
        CleanGapIsHarmless(r, lost, after);
      }
    } else {
      var actual, ideal, x: byte := Drain(Arrive(r, lost)), F.Discard(Drain(r)), 120;
      ProbeFinds(r, lost, []);
      ProbeFinds(r, lost, [x]);
      var once, twice := actual.lines + [F.StripCr(actual.line + [])], actual.lines + [F.StripCr(actual.line + [x])];
      assert |once[|actual.lines|]| < |twice[|actual.lines|]|;
      assert !GapIsHarmless(r, lost, Probe([])) || !GapIsHarmless(r, lost, Probe([x]));
    }
  }

  // ---------------------------------------------------------------- a run that splices two lines

  function SecondLine(): seq<byte> {
    seq(509, _ => 98)
  }

  /** "a", LF and 509 bytes of the next line fill the ring, and one more byte is lost. */
  function OverfillingRun(): seq<Event> {
    Arrivals([97, LF] + SecondLine()) + [Arrival(99)]
  }

  /** The ring is read; "d" and an LF follow and are read. */
  function SplicingRun(): seq<Event> {
    OverfillingRun() + Pops(511) + (Arrivals([100, LF]) + Pops(2))
  }

  lemma FillThenLose(filling: seq<byte>, lost: byte)
    requires |filling| == RING_ROOM
    ensures RunFrom(IDLE, Arrivals(filling) + [Arrival(lost)]) ==
            Receiver(Ring(filling, true, 1, F.Symbols(filling) + [F.Gap]), F.START)
  {
    RunArrivals(IDLE, filling);
    RunFromAppend(IDLE, Arrivals(filling), [Arrival(lost)]);
    RunFromOne(RunFrom(IDLE, Arrivals(filling)), Arrival(lost));
    assert [] + filling == filling && [] + F.Symbols(filling) == F.Symbols(filling);
  }

  lemma AfterOverfilling()
    ensures var r := After(OverfillingRun());
            && r.ring.bytes == [97, LF] + SecondLine() && r.ring.overflowPending && r.framer == F.START
            && r.ring.arrived == F.Symbols([97, LF] + SecondLine()) + [F.Gap]
  {
    FillThenLose([97, LF] + SecondLine(), 99);
  }

  /** Discarding starts at "a" and ends at its LF; the second line is then collected. */
  lemma FrameOverfilled()
    ensures var f := F.Run(F.Discard(F.START), F.Symbols([97, LF] + SecondLine()));
            f.line == SecondLine() && !f.discarding && f.lines == []
  {
    var f0, head := F.Discard(F.START), [97, LF];
    assert F.Symbols(head + SecondLine()) == F.Symbols(head) + F.Symbols(SecondLine());
    F.RunAppend(f0, F.Symbols(head), F.Symbols(SecondLine()));
    FinishLine(f0, [97]);
    assert [97] + [LF] == head;
    RunByte(f0, [97], LF);
    RunWithLf(f0, [97]);
    RunWithoutLf(f0, [97]);
    F.RunSegment(F.Run(f0, F.Symbols(head)), F.Symbols(SecondLine()));
    assert F.Payload(F.Symbols(SecondLine())) == SecondLine();
  }

  lemma AfterReadingOverfilled()
    ensures var r := After(OverfillingRun() + Pops(511));
            && r.ring.bytes == [] && r.framer.line == SecondLine() && !r.framer.discarding && r.framer.lines == []
            && !r.ring.overflowPending && r.ring.arrived == F.Symbols([97, LF] + SecondLine()) + [F.Gap]
  {
    AfterOverfilling();
    FrameOverfilled();
    RunFromAppend(IDLE, OverfillingRun(), Pops(511));
    RunAllPops(After(OverfillingRun()), 511);
  }

  lemma AfterLastBytes(r: Receiver)
    requires r.ring.bytes == [] && !r.ring.overflowPending && !r.framer.discarding
    requires |r.framer.line| < F.MAX_LINE_LENGTH
    ensures var s := RunFrom(r, Arrivals([100, LF]) + Pops(2));
            && s.framer.lines == r.framer.lines + [F.StripCr(r.framer.line + [100])]
            && s.ring.arrived == r.ring.arrived + F.Symbols([100, LF])
  {
    RunFromAppend(r, Arrivals([100, LF]), Pops(2));
    RunArrivals(r, [100, LF]);
    RunAllPops(RunFrom(r, Arrivals([100, LF])), 2);
    assert [] + [100, LF] == [100, LF] && [100] + [LF] == [100, LF];
    FinishLine(r.framer, [100]);
  }

  lemma {:induction false} IdealSplit(broken: seq<F.Symbol>)
    requires F.Gap in broken && F.Unterminated(broken)
    ensures F.Run(F.START, F.Symbols([97]) + [F.Data(LF)] + broken + [F.Data(LF)]).lines == [[97]]
  {
    var first := F.Symbols([97]);
    var both := [first, broken];
    assert both[..1] == [first] && [first][..0] == [];
    assert F.Join([first]) == first + [F.Data(LF)];
    assert F.Join(both) + [] == first + [F.Data(LF)] + broken + [F.Data(LF)];
    assert F.Payload(first) == [97];
    assert F.Delivered([first]) == [[97]];
    F.RunIsSplit(both, []);
  }

  lemma SymbolsAppend(a: seq<byte>, b: seq<byte>)
    ensures F.Symbols(a + b) == F.Symbols(a) + F.Symbols(b)
  {
  }

  /** The history of the run below, cut at its LFs. */
  lemma SplicedHistory(second: seq<byte>)
    ensures F.Symbols([97, LF] + second) + [F.Gap] + F.Symbols([100, LF])
            == F.Symbols([97]) + [F.Data(LF)] + (F.Symbols(second) + [F.Gap] + F.Symbols([100])) + [F.Data(LF)]
  {
    SymbolsAppend([97, LF], second);
    assert F.Symbols([97, LF]) == F.Symbols([97]) + [F.Data(LF)];
    assert F.Symbols([100, LF]) == F.Symbols([100]) + [F.Data(LF)];
  }

  /** The unconditional claim fails: the complete line "a" is lost, and a line is delivered
      whose last byte arrived after the gap and whose other bytes arrived before it. */
  lemma SplicedLineIsDelivered()
    ensures After(SplicingRun()).framer.lines == [SecondLine() + [100]]
    ensures Ideal(After(SplicingRun())).lines == [[97]]
  {
    AfterReadingOverfilled();
    RunFromAppend(IDLE, OverfillingRun() + Pops(511), Arrivals([100, LF]) + Pops(2));
    AfterLastBytes(After(OverfillingRun() + Pops(511)));
    IdealSplit(F.Symbols(SecondLine()) + [F.Gap] + F.Symbols([100]));
    SplicedHistory(SecondLine());
  }
}
