/** The computer's framed connection: its read and write loops over a serial port that reads
    in arbitrary chunks, writes in arbitrary parts, times out and fails. */
module HostConnection {
  import opened Options
  import opened Bytes
  import F = Framing
  import C = ComputerFramer
  import T = TransmitPath

  const READ_SIZE: nat := 512

  datatype WriteResult = Wrote(count: int) | WriteTimedOut | WriteFailed
  datatype ReadOutcome = Received(line: Line) | FramingFailed | ReadTimeout | ReadConnectionFailed | ReadRefused
  datatype WriteOutcome = Written | Unencodable | WriteTimeout | WriteConnectionFailed | WriteRefused

  predicate Refuses(result: WriteResult) {
    result.WriteFailed? || (result.Wrote? && result.count <= 0)
  }

  /** The port: `incoming` is everything the firmware will still send, `wire` everything the
      port has taken. */
  class SerialPort {
    var incoming: seq<byte>
    var wire: seq<byte>
    var time: nat
    /** The reads and writes that raised or took nothing, and the writes that timed out. */
    ghost var failures: nat
    ghost var timeouts: nat

    constructor (incoming: seq<byte>)
      ensures this.incoming == incoming && wire == []
    {
      this.incoming, wire, time := incoming, [], 0;
      failures, timeouts := 0, 0;
    }

    method Monotonic() returns (now: nat)
      modifies this`time
      ensures old(time) <= time == now
    {
      var passed: nat :| true;
      time := time + passed;
      now := time;
    }

    /** Whatever has arrived, up to `size`; nothing only after waiting for its timeout. */
    method Read(size: nat) returns (failed: bool, chunk: seq<byte>)
      modifies this`incoming, this`time, this`failures
      ensures old(time) <= time
      ensures failures == old(failures) + if failed then 1 else 0
      ensures old(incoming) == chunk + incoming && |chunk| <= size
      ensures failed ==> chunk == []
      ensures !failed && chunk == [] ==> time > old(time)
    {
      failed := *;
      var available := if size < |incoming| then size else |incoming|;
      var taken: nat :| taken <= available;
      var waited: nat :| true;
      if failed {
        failures := failures + 1;
        return true, [];
      }
      chunk := incoming[..taken];
      incoming := incoming[taken..];
      time := time + waited + (if taken == 0 then 1 else 0);
    }

    /** Takes a leading part of the data, reported or not. */
    method Write(data: seq<byte>) returns (result: WriteResult)
      modifies this`wire, this`time, this`failures, this`timeouts
      ensures old(time) <= time
      ensures failures == old(failures) + if Refuses(result) then 1 else 0
      ensures timeouts == old(timeouts) + if result.WriteTimedOut? then 1 else 0
      ensures result.Wrote? ==> result.count <= |data|
      ensures result.Wrote? ==> wire == old(wire) + (if result.count > 0 then data[..result.count] else [])
      ensures old(wire) <= wire && wire <= old(wire) + data
    {
      result := *;
      var taken: nat, waited: nat :| taken <= |data|;
      time := time + waited;
      match result {
        case Wrote(count) =>
          if count > |data| {
            result := Wrote(taken);
          }
          if result.count > 0 {
            wire := wire + data[..result.count];
          }
        case _ => wire := wire + data[..taken];
      }
      failures := failures + if Refuses(result) then 1 else 0;
      timeouts := timeouts + if result.WriteTimedOut? then 1 else 0;
    }
  }

  class UsbCdcConnection {
    const device: SerialPort
    const framer: C.NewlineFramer
    /** Bytes read, events handed out, and payloads written whole so far. */
    ghost var consumed: seq<byte>
    ghost var delivered: seq<C.Event>
    ghost var sent: seq<Line>

    constructor (device: SerialPort)
      requires device.wire == []
      ensures Valid() && this.device == device && consumed == [] && delivered == [] && sent == []
      ensures fresh(framer) && device.wire == Terminated(sent)
    {
      this.device := device;
      framer := new C.NewlineFramer(F.MAX_LINE_LENGTH);
      consumed, delivered, sent := [], [], [];
    }

    /** What has been handed out and what is pending are the framing of what has been read. */
    ghost predicate Valid()
      reads this, framer
    {
      C.Feed(C.Start(F.MAX_LINE_LENGTH), consumed) == framer.View().(events := delivered + framer.events)
    }

    /** The oldest pending line or framing error. */
    method NextEvent() returns (event: Option<C.Event>)
      requires Valid()
      modifies this`delivered, framer
      ensures Valid() && (event.None? <==> old(framer.events) == [])
      ensures event.None? ==> framer.events == [] && delivered == old(delivered)
      ensures event.Some? ==> delivered == old(delivered) + [event.value]
      ensures event.Some? && event.value.Failed? ==> event.value.error == C.LineTooLong
    {
      ghost var before := framer.View();
      event := framer.PopLine();
      if event.Some? {
        delivered := delivered + [event.value];
        assert old(delivered) + before.events == delivered + framer.events;
        OnlyTooLong(consumed, |old(delivered)|);
      }
    }

    method Absorb(chunk: seq<byte>)
      requires Valid()
      modifies this`consumed, framer
      ensures Valid() && consumed == old(consumed) + chunk
    {
      if chunk != [] {
        ghost var view := framer.View();
        framer.FeedData(chunk);
        FeedMore(consumed, chunk, view, delivered);
        consumed := consumed + chunk;
      } else {
        assert consumed + chunk == consumed;
      }
    }

    /** One line, one framing error, or a timeout that loses nothing already read. */
    method ReadLine(timeout: int) returns (outcome: ReadOutcome)
      requires Valid()
      modifies this`consumed, this`delivered, framer, device`incoming, device`time, device`failures
      ensures Valid() && old(consumed + device.incoming) == consumed + device.incoming && old(consumed) <= consumed
      ensures delivered == old(delivered) +
        (match outcome case Received(line) => [C.Complete(line)] case FramingFailed => [C.Failed(C.LineTooLong)]
         case _ => [])
      ensures outcome.ReadTimeout? || outcome.ReadConnectionFailed? ==> framer.events == []
      ensures outcome.ReadTimeout? ==> old(device.time) + timeout <= device.time
      ensures timeout >= 0 && old(framer.events) != [] ==>
        (outcome.Received? || outcome.FramingFailed?) && device.incoming == old(device.incoming)
      ensures outcome.ReadRefused? <==> timeout < 0
      ensures device.failures == old(device.failures) + if outcome.ReadConnectionFailed? then 1 else 0
    {
      if timeout < 0 {
        return ReadRefused;
      }
      var begun := device.Monotonic();
      var deadline := begun + timeout;
      while true
        invariant Valid() && old(consumed + device.incoming) == consumed + device.incoming && old(consumed) <= consumed
        invariant delivered == old(delivered) && old(device.time) <= begun && deadline == begun + timeout
        invariant old(framer.events) != [] ==> framer.events != [] && device.incoming == old(device.incoming)
        invariant device.failures == old(device.failures)
        decreases |device.incoming|, if device.time < deadline then deadline - device.time else 0
      {
        var event := NextEvent();
        if event.Some? {
          outcome := if event.value.Complete? then Received(event.value.line) else FramingFailed;
          return;
        }
        var now := device.Monotonic();
        if deadline - now <= 0 {
          return ReadTimeout;
        }
        var failed, chunk := device.Read(READ_SIZE);
        if failed {
          return ReadConnectionFailed;
        }
        Absorb(chunk);
      }
    }

    /** The whole frame reaches the wire, or an error is raised and a leading part of it has; it
        is raised only for a limit that has passed, an endpoint that failed or took nothing, or a
        payload that cannot be framed. */
    method WriteLine(payload: seq<byte>, timeout: int) returns (outcome: WriteOutcome)
      modifies this`sent, device`wire, device`time, device`failures, device`timeouts
      ensures outcome.WriteRefused? <==> timeout < 0
      ensures device.failures == old(device.failures) + if outcome.WriteConnectionFailed? then 1 else 0
      ensures outcome.WriteTimeout? ==>
              old(device.time) + timeout <= device.time || device.timeouts == old(device.timeouts) + 1
      ensures outcome.Written? ==> device.wire == old(device.wire) + payload + [LF] && sent == old(sent) + [payload]
      ensures outcome.Written? ==> C.Encodable(payload, F.MAX_LINE_LENGTH)
      ensures outcome.Written? && old(device.wire == Terminated(sent)) ==> device.wire == Terminated(sent)
      ensures !outcome.Written? ==> sent == old(sent)
      ensures !outcome.Written? ==> old(device.wire) <= device.wire && device.wire <= old(device.wire) + payload + [LF]
      ensures outcome.Unencodable? || outcome.WriteRefused? ==> device.wire == old(device.wire)
      ensures !C.Encodable(payload, F.MAX_LINE_LENGTH) && timeout >= 0 ==> outcome.Unencodable?
    {
      if timeout < 0 {
        return WriteRefused;
      }
      var encoded := C.EncodeLine(payload, F.MAX_LINE_LENGTH);
      if encoded.Failure? {
        return Unencodable;
      }
      var frame, offset := encoded.value, 0;
      var begun := device.Monotonic();
      var deadline := begun + timeout;
      while offset < |frame|
        invariant sent == old(sent) && old(device.time) <= begun && deadline == begun + timeout
        invariant device.failures == old(device.failures) && device.timeouts == old(device.timeouts)
        invariant 0 <= offset <= |frame| && device.wire == old(device.wire) + frame[..offset]
        decreases |frame| - offset
      {
        var now := device.Monotonic();
        if deadline - now <= 0 {
          return WriteTimeout;
        }
        var result := device.Write(frame[offset..]);
        PartOfFrame(old(device.wire), frame, offset, device.wire);
        match result {
          case WriteTimedOut => return WriteTimeout;
          case WriteFailed => return WriteConnectionFailed;
          case Wrote(written) =>
            if written <= 0 {
              return WriteConnectionFailed;
            }
            assert frame[..offset + written] == frame[..offset] + frame[offset..][..written];
            offset := offset + written;
        }
      }
      assert (sent + [payload])[..|sent|] == sent;
      sent := sent + [payload];
      assert frame[..offset] == frame;
      assert device.wire == old(device.wire) + payload + [LF];
      return Written;
    }
  }

  lemma PartOfFrame(before: seq<byte>, frame: seq<byte>, offset: nat, wire: seq<byte>)
    requires offset <= |frame| && before + frame[..offset] <= wire && wire <= before + frame[..offset] + frame[offset..]
    ensures before <= wire && wire <= before + frame
  {
  }

  lemma FeedMore(consumed: seq<byte>, chunk: seq<byte>, view: C.Framer, delivered: seq<C.Event>)
    requires C.Feed(C.Start(F.MAX_LINE_LENGTH), consumed) == view.(events := delivered + view.events)
    ensures var fed := C.Feed(view, chunk);
            C.Feed(C.Start(F.MAX_LINE_LENGTH), consumed + chunk) == fed.(events := delivered + fed.events)
  {
    C.FeedAppend(C.Start(F.MAX_LINE_LENGTH), consumed, chunk);
    FeedShift(view, chunk, delivered);
  }

  /** Events handed out earlier do not influence framing. */
  lemma {:induction false} FeedShift(f: C.Framer, data: seq<byte>, earlier: seq<C.Event>)
    ensures C.Feed(f.(events := earlier + f.events), data)
            == C.Feed(f, data).(events := earlier + C.Feed(f, data).events)
  {
    if data != [] {
      FeedShift(f, data[..|data| - 1], earlier);
      var g := C.Feed(f, data[..|data| - 1]);
      assert earlier + g.events + [C.Failed(C.LineTooLong)] == earlier + (g.events + [C.Failed(C.LineTooLong)]);
      assert earlier + g.events + [C.Complete(F.StripCr(g.line))] ==
             earlier + (g.events + [C.Complete(F.StripCr(g.line))]);
    }
  }

  lemma {:induction false} OnlyTooLong(data: seq<byte>, i: nat)
    ensures var events := C.Feed(C.Start(F.MAX_LINE_LENGTH), data).events;
            i < |events| && events[i].Failed? ==> events[i].error == C.LineTooLong
  {
    if data != [] {
      OnlyTooLong(data[..|data| - 1], i);
    }
  }

  lemma {:induction false} FeedGrows(f: C.Framer, data: seq<byte>)
    ensures f.events <= C.Feed(f, data).events
  {
    if data != [] {
      FeedGrows(f, data[..|data| - 1]);
    }
  }

  function Completed(payloads: seq<Line>): seq<C.Event> {
    seq(|payloads|, i requires 0 <= i < |payloads| => C.Complete(payloads[i]))
  }

  /** Reading: of payloads the firmware queued, whatever chunks and timeouts come between, the
      connection has handed out a prefix, in order and without errors, and once everything has
      been read and nothing is pending, all of them. */
  lemma ReadsWhatWasSent(payloads: seq<Line>, consumed: seq<byte>, incoming: seq<byte>, delivered: seq<C.Event>,
                         pending: seq<C.Event>)
    requires forall p :: p in payloads ==> C.Encodable(p, F.MAX_LINE_LENGTH)
    requires consumed + incoming == Terminated(payloads)
    requires C.Feed(C.Start(F.MAX_LINE_LENGTH), consumed).events == delivered + pending
    ensures delivered <= Completed(payloads)
    ensures incoming == [] && pending == [] ==> delivered == Completed(payloads)
  {
    C.DecodeEncoded(payloads, F.MAX_LINE_LENGTH);
    C.FeedAppend(C.Start(F.MAX_LINE_LENGTH), consumed, incoming);
    FeedGrows(C.Feed(C.Start(F.MAX_LINE_LENGTH), consumed), incoming);
    if incoming == [] {
      assert consumed + incoming == consumed;
    }
  }

  /** Writing: the firmware's framer finds in the wire exactly the payloads written. */
  lemma FirmwareReadsWhatWasWritten(payloads: seq<Line>)
    requires forall p :: p in payloads ==> C.Encodable(p, F.MAX_LINE_LENGTH)
    ensures var f := F.Run(F.START, F.Symbols(Terminated(payloads)));
            f.lines == payloads && f.line == [] && !f.discarding && f.overflows == 0
  {
    C.SameAsFirmware(Terminated(payloads));
    C.DecodeEncoded(payloads, F.MAX_LINE_LENGTH);
    CompletedEvents(payloads);
    AlikeEmpty(F.Run(F.START, F.Symbols(Terminated(payloads))), payloads);
  }

  /** The two ends accept the same lines: what the firmware queues the computer could encode. */
  lemma SameLinesBothWays(payload: seq<byte>)
    ensures T.Queueable(payload) <==> C.Encodable(payload, 4096)
    ensures C.Encodable(payload, F.MAX_LINE_LENGTH) <==> C.Encodable(payload, 4096)
  {
    C.EncodableIff(payload, 4096);
  }

  lemma AlikeEmpty(f: F.Framer, payloads: seq<Line>)
    requires C.Alike(f, C.Framer(F.MAX_LINE_LENGTH, [], false, Completed(payloads)))
    requires C.Lines(Completed(payloads)) == payloads && C.Errors(Completed(payloads)) == 0
    ensures f.lines == payloads && f.line == [] && !f.discarding && f.overflows == 0
  {
  }

  lemma {:induction false} CompletedEvents(payloads: seq<Line>)
    ensures C.Lines(Completed(payloads)) == payloads && C.Errors(Completed(payloads)) == 0
  {
    if payloads != [] {
      CompletedEvents(payloads[..|payloads| - 1]);
      assert Completed(payloads)[..|payloads| - 1] == Completed(payloads[..|payloads| - 1]);
    }
  }
}
