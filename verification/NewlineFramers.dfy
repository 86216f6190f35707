/** The firmware framer: a fixed line buffer filled in place, one callback per line. */
module FirmwareFramer {
  import opened Bytes
  import F = Framing

  class NewlineFramer {
    const line: array<byte>
    var length: nat
    var overflowCount: uint32
    var discarding: bool
    /** Every line the callback has received, in order. */
    ghost var delivered: seq<Line>

    ghost predicate Valid()
      reads this
    {
      line.Length == F.MAX_LINE_LENGTH && length <= line.Length
    }

    ghost function View(): F.Framer
      reads this, line
      requires Valid()
    {
      F.Framer(line[..length], discarding, overflowCount, delivered)
    }

    constructor ()
      ensures Valid() && fresh(line)
      ensures View() == F.START
    {
      line := new byte[F.MAX_LINE_LENGTH];
      length, overflowCount, discarding := 0, 0, false;
      delivered := [];
    }

    method DiscardCurrentLine()
      requires Valid()
      modifies this
      ensures Valid()
      ensures View() == F.Step(old(View()), F.Gap)
    {
      length := 0;
      discarding := true;
      overflowCount := Increment(overflowCount);
    }

    method Consume(data: seq<byte>) returns (lines: seq<Line>)
      requires Valid()
      modifies this, line
      ensures Valid()
      ensures View() == F.Run(old(View()), F.Symbols(data))
      ensures delivered == old(delivered) + lines
    {
      lines := [];
      assert F.Symbols(data)[..0] == [];
      for index := 0 to |data|
        invariant Valid()
        invariant View() == F.Run(old(View()), F.Symbols(data)[..index])
        invariant delivered == old(delivered) + lines
      {
        var b := data[index];
        F.RunSnoc(old(View()), F.Symbols(data)[..index], F.Data(b));
        assert F.Symbols(data)[..index + 1] == F.Symbols(data)[..index] + [F.Data(b)];
        if discarding {
          if b == LF {
            discarding := false;
          }
          continue;
        }
        if b == LF {
          var lineLength := length;
          if lineLength > 0 && line[lineLength - 1] == CR {
            lineLength := lineLength - 1;
          }
          assert line[..lineLength] == F.StripCr(line[..length]);
          lines := lines + [line[..lineLength]];
          delivered := delivered + [line[..lineLength]];
          length := 0;
          continue;
        }
        if length == F.MAX_LINE_LENGTH {
          DiscardCurrentLine();
          continue;
        }
        ghost var held := line[..length];
        line[length] := b;
        length := length + 1;
        assert line[..length] == held + [b];
      }
      assert F.Symbols(data)[..|data|] == F.Symbols(data);
    }
  }
}

/** The computer-side framer: the same LF-split, reporting oversized lines as ordered
    errors, with a configurable limit. */
module ComputerFramer {
  import opened Options
  import opened Bytes
  import F = Framing

  datatype FramingError = LineTooLong | ContainsTerminator
  datatype Event = Complete(line: Line) | Failed(error: FramingError)
  datatype Framer = Framer(limit: nat, line: Line, discarding: bool, events: seq<Event>)
  datatype Result<T> = Success(value: T) | Failure(error: FramingError)

  function Start(limit: nat): Framer {
    Framer(limit, [], false, [])
  }

  function Feed1(f: Framer, b: byte): Framer {
    if f.discarding then
      if b == LF then f.(discarding := false, events := f.events + [Failed(LineTooLong)]) else f
    else if b == LF then
      f.(line := [], events := f.events + [Complete(F.StripCr(f.line))])
    else if |f.line| == f.limit then
      f.(line := [], discarding := true)
    else
      f.(line := f.line + [b])
  }

  function Feed(f: Framer, data: seq<byte>): Framer {
    if data == [] then f else Feed1(Feed(f, data[..|data| - 1]), data[|data| - 1])
  }

  /** One event per segment: its line, or the error when it is over the limit. */
  function Classify(segments: seq<seq<byte>>, limit: nat): (events: seq<Event>)
    ensures |events| == |segments|
    ensures forall i :: 0 <= i < |segments| ==>
      events[i] == if |segments[i]| <= limit then Complete(F.StripCr(segments[i])) else Failed(LineTooLong)
  {
    if segments == [] then []
    else
      var last := segments[|segments| - 1];
      Classify(segments[..|segments| - 1], limit) +
      [if |last| <= limit then Complete(F.StripCr(last)) else Failed(LineTooLong)]
  }

  function Lines(events: seq<Event>): seq<Line> {
    if events == [] then []
    else
      Lines(events[..|events| - 1]) +
      match events[|events| - 1] case Complete(line) => [line] case Failed(_) => []
  }

  function Errors(events: seq<Event>): nat {
    if events == [] then 0
    else Errors(events[..|events| - 1]) + if events[|events| - 1].Failed? then 1 else 0
  }

  lemma {:induction false} FeedAppend(f: Framer, a: seq<byte>, b: seq<byte>)
    ensures Feed(f, a + b) == Feed(Feed(f, a), b)
  {
    if b == [] {
      assert a + b == a;
    } else {
      assert (a + b)[..|a + b| - 1] == a + b[..|b| - 1];
      FeedAppend(f, a, b[..|b| - 1]);
    }
  }

  lemma FeedSnoc(f: Framer, a: seq<byte>, b: byte)
    ensures Feed(f, a + [b]) == Feed1(Feed(f, a), b)
  {
  }

  lemma {:induction false} FeedSegment(f: Framer, segment: seq<byte>)
    requires f.line == [] && !f.discarding && LF !in segment
    ensures var g := Feed(f, segment);
            && g.events == f.events && g.limit == f.limit
            && g.discarding == (|segment| > f.limit)
            && g.line == (if |segment| <= f.limit then segment else [])
  {
    if segment != [] {
      assert segment == segment[..|segment| - 1] + [segment[|segment| - 1]];
      FeedSegment(f, segment[..|segment| - 1]);
    }
  }

  /** For every stream: one event per LF-terminated segment, in order, whatever the chunking. */
  lemma {:induction false} FeedIsSplit(segments: seq<seq<byte>>, rest: seq<byte>, limit: nat)
    requires forall s :: s in segments ==> LF !in s
    requires LF !in rest
    ensures var f := Feed(Start(limit), Terminated(segments) + rest);
            && f.events == Classify(segments, limit) && f.limit == limit
            && f.discarding == (|rest| > limit)
            && f.line == (if |rest| <= limit then rest else [])
  {
    if segments != [] {
      var before, last := segments[..|segments| - 1], segments[|segments| - 1];
      FeedIsSplit(before, last, limit);
      FeedSnoc(Start(limit), Terminated(before) + last, LF);
    }
    FeedAppend(Start(limit), Terminated(segments), rest);
    FeedSegment(Feed(Start(limit), Terminated(segments)), rest);
  }

  /** One firmware state and one computer state that have seen the same stream. */
  ghost predicate Alike(c: F.Framer, p: Framer) {
    && c.lines == Lines(p.events) && c.line == p.line && c.discarding == p.discarding
    && c.overflows == (Errors(p.events) + if p.discarding then 1 else 0) % 0x1_0000_0000
    && p.limit == F.MAX_LINE_LENGTH
  }

  lemma LinesAndErrorsSnoc(events: seq<Event>, e: Event)
    ensures Lines(events + [e]) == Lines(events) + match e case Complete(line) => [line] case Failed(_) => []
    ensures Errors(events + [e]) == Errors(events) + if e.Failed? then 1 else 0
  {
  }

  lemma IncrementWraps(n: nat)
    ensures Increment(n % 0x1_0000_0000) == (n + 1) % 0x1_0000_0000
  {
  }

  /** A discarding framer only looks for the LF. */
  lemma StepDiscarding(c: F.Framer, p: Framer, b: byte)
    requires Alike(c, p) && p.discarding
    ensures Alike(F.Consume(c, b), Feed1(p, b))
  {
    LinesAndErrorsSnoc(p.events, Failed(LineTooLong));
    assert Lines(p.events) + [] == Lines(p.events);
  }

  lemma StepEndOfLine(c: F.Framer, p: Framer)
    requires Alike(c, p) && !p.discarding
    ensures Alike(F.Consume(c, LF), Feed1(p, LF))
  {
    LinesAndErrorsSnoc(p.events, Complete(F.StripCr(p.line)));
  }

  lemma StepInLine(c: F.Framer, p: Framer, b: byte)
    requires Alike(c, p) && !p.discarding && b != LF
    ensures Alike(F.Consume(c, b), Feed1(p, b))
  {
    IncrementWraps(Errors(p.events));
  }

  lemma StepAlike(c: F.Framer, p: Framer, b: byte)
    requires Alike(c, p)
    ensures Alike(F.Consume(c, b), Feed1(p, b))
  {
    if p.discarding {
      StepDiscarding(c, p, b);
    } else if b == LF {
      StepEndOfLine(c, p);
    } else {
      StepInLine(c, p, b);
    }
  }

  /** Both framers see any stream alike: same lines in the same order, same open line, and
      the firmware counter is the number of reported errors, plus one mid-discard. */
  lemma {:induction false} SameAsFirmware(data: seq<byte>)
    ensures Alike(F.Run(F.START, F.Symbols(data)), Feed(Start(F.MAX_LINE_LENGTH), data))
  {
    if data != [] {
      var before, b := data[..|data| - 1], data[|data| - 1];
      SameAsFirmware(before);
      F.RunSnoc(F.START, F.Symbols(before), F.Data(b));
      assert F.Symbols(data) == F.Symbols(before) + [F.Data(b)];
      StepAlike(F.Run(F.START, F.Symbols(before)), Feed(Start(F.MAX_LINE_LENGTH), before), b);
    }
  }

  function EncodeLine(payload: seq<byte>, limit: nat): Result<seq<byte>> {
    if |payload| > limit then Failure(LineTooLong)
    else if LF in payload || CR in payload then Failure(ContainsTerminator)
    else Success(payload + [LF])
  }

  ghost predicate Encodable(payload: seq<byte>, limit: nat) {
    EncodeLine(payload, limit).Success?
  }

  /** Exactly the payloads within the limit that hold no line terminator can be encoded. */
  lemma EncodableIff(payload: seq<byte>, limit: nat)
    ensures Encodable(payload, limit) <==>
            |payload| <= limit && forall i :: 0 <= i < |payload| ==> payload[i] != 10 && payload[i] != 13
    ensures Encodable(payload, limit) ==> EncodeLine(payload, limit).value == payload + [10]
  {
  }

  /** Framing undoes encoding: any accepted payloads, terminated and sent back to back, are
      reported as exactly those payloads, in order, with nothing left over. */
  lemma {:induction false} DecodeEncoded(payloads: seq<seq<byte>>, limit: nat)
    requires forall p :: p in payloads ==> Encodable(p, limit)
    ensures Feed(Start(limit), Terminated(payloads)) ==
            Framer(limit, [], false, seq(|payloads|, i requires 0 <= i < |payloads| => Complete(payloads[i])))
  {
    FeedIsSplit(payloads, [], limit);
    assert Terminated(payloads) + [] == Terminated(payloads);
    forall i | 0 <= i < |payloads|
      ensures Classify(payloads, limit)[i] == Complete(payloads[i])
    {
      assert payloads[i] in payloads;
    }
  }

  class NewlineFramer {
    const maxLineLength: nat
    var line: seq<byte>
    var events: seq<Event>
    var discarding: bool

    ghost function View(): Framer
      reads this
    {
      Framer(maxLineLength, line, discarding, events)
    }

    constructor (maxLineLength: nat)
      ensures View() == Start(maxLineLength)
    {
      this.maxLineLength := maxLineLength;
      line, events, discarding := [], [], false;
    }

    /** The checked construction: a limit below one is a ValueError. */
    static method Create(maxLineLength: int) returns (framer: Option<NewlineFramer>)
      ensures framer.None? <==> maxLineLength < 1
      ensures framer.Some? ==> fresh(framer.value) && framer.value.View() == Start(maxLineLength)
    {
      if maxLineLength < 1 {
        return None;
      }
      var made := new NewlineFramer(maxLineLength);
      return Some(made);
    }

    method FeedData(data: seq<byte>)
      modifies this
      ensures View() == Feed(old(View()), data)
    {
      assert data[..0] == [];
      for index := 0 to |data|
        invariant View() == Feed(old(View()), data[..index])
      {
        var b := data[index];
        FeedSnoc(old(View()), data[..index], b);
        assert data[..index + 1] == data[..index] + [b];
        if discarding {
          if b == LF {
            discarding := false;
            events := events + [Failed(LineTooLong)];
          }
          continue;
        }
        if b == LF {
          if line != [] && line[|line| - 1] == CR {
            line := line[..|line| - 1];
          }
          events := events + [Complete(line)];
          line := [];
          continue;
        }
        if |line| == maxLineLength {
          line := [];
          discarding := true;
          continue;
        }
        line := line + [b];
      }
      assert data[..|data|] == data;
    }

    /** None when nothing is complete; otherwise the oldest line or the oldest error. */
    method PopLine() returns (event: Option<Event>)
      modifies this
      ensures event.None? <==> old(events) == []
      ensures event.None? ==> View() == old(View())
      ensures event.Some? ==>
        old(View()) == View().(events := [event.value] + View().events)
    {
      if events == [] {
        return None;
      }
      event := Some(events[0]);
      events := events[1..];
    }
  }
}
