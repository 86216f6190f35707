/** A value or nothing. */
module Options {
  datatype Option<T> = None | Some(value: T)
}

/** The bytes on the USB serial link and the widths the firmware counts in. */
module Bytes {
  type byte = bv8
  type Line = seq<byte>
  type uint32 = n: nat | n < 0x1_0000_0000

  const LF: byte := 10
  const CR: byte := 13

  /** `counter++` on a 32-bit counter. */
  function Increment(counter: uint32): uint32 {
    if counter == 0xFFFF_FFFF then 0 else counter + 1
  }

  /** A 32-bit counter that started at zero, after `n` increments. */
  function Counted(n: nat): uint32 {
    if n == 0 then 0 else Increment(Counted(n - 1))
  }

  lemma {:induction false} CountedWraps(n: nat)
    ensures Counted(n) == n % 0x1_0000_0000
  {
    if n > 0 {
      CountedWraps(n - 1);
    }
  }

  /** These lines back to back, each with its LF. */
  function Terminated(lines: seq<Line>): seq<byte> {
    if lines == [] then [] else Terminated(lines[..|lines| - 1]) + lines[|lines| - 1] + [LF]
  }
}

/** Newline framing as a transition system over a byte stream with gaps, and the
    declarative LF-split that every framer of the repository has to implement. */
module Framing {
  import opened Bytes

  const MAX_LINE_LENGTH: nat := 4096

  /** One step of a framer's input: a byte, or the place where bytes were lost. */
  datatype Symbol = Data(value: byte) | Gap

  /** `lines` is everything handed to the line callback so far. */
  datatype Framer = Framer(line: Line, discarding: bool, overflows: uint32, lines: seq<Line>)

  const START := Framer([], false, 0, [])

  function StripCr(line: Line): Line {
    if line != [] && line[|line| - 1] == CR then line[..|line| - 1] else line
  }

  function Discard(f: Framer): Framer {
    f.(line := [], discarding := true, overflows := Increment(f.overflows))
  }

  function Consume(f: Framer, b: byte): Framer {
    if f.discarding then
      if b == LF then f.(discarding := false) else f
    else if b == LF then
      f.(line := [], lines := f.lines + [StripCr(f.line)])
    else if |f.line| == MAX_LINE_LENGTH then
      Discard(f)
    else
      f.(line := f.line + [b])
  }

  function Step(f: Framer, s: Symbol): Framer {
    match s
    case Data(b) => Consume(f, b)
    case Gap => Discard(f)
  }

  function Run(f: Framer, stream: seq<Symbol>): Framer {
    if stream == [] then f else Step(Run(f, stream[..|stream| - 1]), stream[|stream| - 1])
  }

  function Symbols(data: seq<byte>): (stream: seq<Symbol>)
    ensures |stream| == |data| && Gap !in stream
  {
    seq(|data|, i requires 0 <= i < |data| => Data(data[i]))
  }

  // ---------------------------------------------------------------- the reference

  predicate Unterminated(segment: seq<Symbol>) {
    Data(LF) !in segment
  }

  predicate Sound(segment: seq<Symbol>) {
    Gap !in segment && |segment| <= 4096
  }

  function Payload(segment: seq<Symbol>): (line: Line)
    requires Gap !in segment
    ensures |line| == |segment|
  {
    seq(|segment|, i requires 0 <= i < |segment| => assert segment[i] in segment; segment[i].value)
  }

  /** The stream whose LF-terminated pieces are `segments`. */
  function Join(segments: seq<seq<Symbol>>): seq<Symbol> {
    if segments == [] then []
    else Join(segments[..|segments| - 1]) + segments[|segments| - 1] + [Data(LF)]
  }

  /** The lines a receiver should see: every sound segment, less one trailing CR. */
  function Delivered(segments: seq<seq<Symbol>>): seq<Line> {
    if segments == [] then []
    else
      var last := segments[|segments| - 1];
      Delivered(segments[..|segments| - 1]) + if Sound(last) then [StripCr(Payload(last))] else []
  }

  // ---------------------------------------------------------------- runs

  lemma {:induction false} RunAppend(f: Framer, a: seq<Symbol>, b: seq<Symbol>)
    ensures Run(f, a + b) == Run(Run(f, a), b)
  {
    if b == [] {
      assert a + b == a;
    } else {
      var b' := b[..|b| - 1];
      assert (a + b)[..|a + b| - 1] == a + b';
      RunAppend(f, a, b');
    }
  }

  lemma RunOne(f: Framer, s: Symbol)
    ensures Run(f, [s]) == Step(f, s)
  {
  }

  lemma RunSnoc(f: Framer, a: seq<Symbol>, s: Symbol)
    ensures Run(f, a + [s]) == Step(Run(f, a), s)
  {
  }

  /** From a clean start an LF-free piece is either collected whole or being discarded. */
  lemma {:induction false} RunSegment(f: Framer, segment: seq<Symbol>)
    requires f.line == [] && !f.discarding && Unterminated(segment)
    ensures var g := Run(f, segment);
            && g.lines == f.lines
            && g.discarding == !Sound(segment)
            && g.line == (if Sound(segment) then Payload(segment) else [])
  {
    if segment != [] {
      var before, s := segment[..|segment| - 1], segment[|segment| - 1];
      assert segment == before + [s];
      assert s in segment;
      RunSegment(f, before);
      RunSnoc(f, before, s);
      if Sound(segment) {
        assert Gap !in before && s != Data(LF);
        assert Payload(segment) == Payload(before) + [s.value];
      } else if Sound(before) {
        assert s == Gap || |before| == MAX_LINE_LENGTH;
      }
    }
  }

  /** What the framer does with any stream, stated on the stream alone: the delivered
      lines are the sound LF-terminated segments, and the unfinished rest is either held
      or being discarded. */
  lemma {:induction false} RunIsSplit(segments: seq<seq<Symbol>>, rest: seq<Symbol>)
    requires forall s :: s in segments ==> Unterminated(s)
    requires Unterminated(rest)
    ensures var f := Run(START, Join(segments) + rest);
            && f.lines == Delivered(segments)
            && f.discarding == !Sound(rest)
            && f.line == (if Sound(rest) then Payload(rest) else [])
  {
    if segments != [] {
      var before, last := segments[..|segments| - 1], segments[|segments| - 1];
      RunIsSplit(before, last);
      RunSnoc(START, Join(before) + last, Data(LF));
    }
    RunAppend(START, Join(segments), rest);
    RunSegment(Run(START, Join(segments)), rest);
  }

  /** Every stream has such a split, so RunIsSplit covers all of them. */
  lemma {:induction false} SplitExists(stream: seq<Symbol>) returns (segments: seq<seq<Symbol>>, rest: seq<Symbol>)
    ensures stream == Join(segments) + rest
    ensures Unterminated(rest) && forall s :: s in segments ==> Unterminated(s)
  {
    if stream == [] {
      segments, rest := [], [];
    } else {
      var before, s := stream[..|stream| - 1], stream[|stream| - 1];
      var segs, open := SplitExists(before);
      assert stream == before + [s];
      if s == Data(LF) {
        segments, rest := segs + [open], [];
        assert segments[..|segs|] == segs;
        assert Join(segments) == Join(segs) + open + [s];
      } else {
        segments, rest := segs, open + [s];
      }
    }
  }
}
