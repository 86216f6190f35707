/** The whole transport: both halves, the queue of complete received lines between them and
    the application, and the main-loop service function. */
module TransportModel {
  import opened Bytes
  import F = Framing
  import R = ReceivePath
  import T = TransmitPath

  const LINE_QUEUE_DEPTH: nat := 2

  /** Complete lines waiting for the application. */
  datatype Inbox = Inbox(lines: seq<Line>, dropped: uint32)

  datatype Inbound = Inbound(receiver: R.Receiver, inbox: Inbox)

  datatype Transport = Transport(inbound: Inbound, transmitter: T.Transmitter)

  datatype LineResult = Unavailable | Available(line: Line) | BufferTooSmall

  const IDLE := Transport(Inbound(R.IDLE, Inbox([], 0)), T.IDLE)

  function CompletedLine(inbox: Inbox, line: Line): Inbox {
    if |inbox.lines| == LINE_QUEUE_DEPTH then inbox.(dropped := Increment(inbox.dropped))
    else inbox.(lines := inbox.lines + [line])
  }

  function PeekLine(inbox: Inbox, capacity: nat): LineResult {
    if inbox.lines == [] then Unavailable
    else if capacity <= |inbox.lines[0]| then BufferTooSmall
    else Available(inbox.lines[0])
  }

  function ReadLine(inbox: Inbox, capacity: nat): Inbox {
    if PeekLine(inbox, capacity).Available? then inbox.(lines := inbox.lines[1..]) else inbox
  }

  /** The lines a framer step adds to the callback go to the inbox. */
  function HandOver(inbox: Inbox, before: F.Framer, after: F.Framer): Inbox {
    if |after.lines| > |before.lines| then CompletedLine(inbox, after.lines[|after.lines| - 1]) else inbox
  }

  /** One pop of the main loop, with the line it may complete. */
  function TakeByte(t: Inbound): Inbound {
    var r := R.PopAndFrame(t.receiver);
    Inbound(r, HandOver(t.inbox, t.receiver.framer, r.framer))
  }

  /** What the pop alone does, before the byte and the flag reach the framer. */
  function PopOnly(t: Inbound): Inbound {
    t.(receiver := R.Receiver(R.Popped(t.receiver.ring), t.receiver.framer))
  }

  function Receive(t: Inbound, packet: seq<byte>): Inbound {
    t.(receiver := t.receiver.(ring := R.StoreAll(t.receiver.ring, packet)))
  }

  /** The pop loop; `arrivals[i]` is what interrupts deliver after the i-th pop. */
  function ProcessReceived(t: Inbound, arrivals: seq<seq<byte>>): Inbound
    decreases |arrivals|, |t.receiver.ring.bytes|
  {
    if t.receiver.ring.bytes == [] then TakeByte(t)
    else if arrivals == [] then ProcessReceived(TakeByte(t), [])
    else ProcessReceived(Receive(TakeByte(t), arrivals[0]), arrivals[1..])
  }

  // ---------------------------------------------------------------- the loop is a run

  lemma {:induction false} AfterPacket(events: seq<R.Event>, packet: seq<byte>)
    ensures R.After(events + R.Arrivals(packet)) ==
            R.After(events).(ring := R.StoreAll(R.After(events).ring, packet))
  {
    if packet == [] {
      assert events + R.Arrivals(packet) == events;
    } else {
      var run := events + R.Arrivals(packet);
      assert run[..|run| - 1] == events + R.Arrivals(packet[..|packet| - 1]);
      AfterPacket(events, packet[..|packet| - 1]);
    }
  }

  /** Every execution of the pop loop is one of the interleavings the receive theorems cover,
      and it leaves the ring empty with no overflow pending. */
  lemma {:induction false} ProcessReceivedIsARun(t: Inbound, events: seq<R.Event>, arrivals: seq<seq<byte>>)
    returns (run: seq<R.Event>)
    requires t.receiver == R.After(events)
    ensures events <= run
    ensures ProcessReceived(t, arrivals).receiver == R.After(run)
    ensures R.After(run).ring.bytes == [] && !R.After(run).ring.overflowPending
    decreases |arrivals|, |t.receiver.ring.bytes|
  {
    run := events + [R.Pop];
    assert run[..|events|] == events;
    if t.receiver.ring.bytes != [] {
      if arrivals == [] {
        run := ProcessReceivedIsARun(TakeByte(t), run, []);
      } else {
        AfterPacket(run, arrivals[0]);
        run := ProcessReceivedIsARun(Receive(TakeByte(t), arrivals[0]), run + R.Arrivals(arrivals[0]), arrivals[1..]);
      }
    } else {
      R.OverflowMeansFull(events);
    }
  }
}

/** usb_cdc_transport.c: the arrays, indices and flags shared by the USB interrupt and the
    main loop, each function proved against its transition. */
module UsbCdcTransport {
  import opened Options
  import opened Bytes
  import opened TransportModel
  import F = Framing
  import FF = FirmwareFramer
  import R = ReceivePath
  import T = TransmitPath

  /** The bytes from `tail` up to `head` of a circular buffer. */
  function Circular(slots: seq<byte>, tail: nat, head: nat): seq<byte>
    requires tail < |slots| && head < |slots|
  {
    if tail <= head then slots[tail..head] else slots[tail..] + slots[..head]
  }

  function NextIndex(index: nat, n: nat): nat {
    if index + 1 == n then 0 else index + 1
  }

  lemma CircularPush(slots: seq<byte>, tail: nat, head: nat, b: byte)
    requires tail < |slots| && head < |slots|
    ensures NextIndex(head, |slots|) == tail <==> |Circular(slots, tail, head)| == |slots| - 1
    ensures NextIndex(head, |slots|) != tail ==>
      Circular(slots[head := b], tail, NextIndex(head, |slots|)) == Circular(slots, tail, head) + [b]
  {
    var next, pushed := NextIndex(head, |slots|), slots[head := b];
    if tail <= head {
      assert pushed[tail..head + 1] == slots[tail..head] + [b];
      if next == 0 {
        assert pushed[tail..] == pushed[tail..head + 1] && pushed[..0] == [];
      }
    } else if next != tail {
      assert pushed[tail..] == slots[tail..] && pushed[..next] == slots[..head] + [b];
    }
  }

  lemma FirstOf(s: seq<byte>, lo: nat, hi: nat)
    requires lo < hi <= |s|
    ensures s[lo..hi] == [s[lo]] + s[lo + 1..hi]
  {
  }

  lemma FirstOfTwo(s: seq<byte>, x: seq<byte>, y: seq<byte>, b: byte)
    requires s == [b] + x
    ensures s + y == [b] + (x + y)
  {
  }

  lemma CircularPop(slots: seq<byte>, tail: nat, head: nat)
    requires tail < |slots| && head < |slots|
    ensures tail == head <==> Circular(slots, tail, head) == []
    ensures tail != head ==>
      Circular(slots, tail, head) == [slots[tail]] + Circular(slots, NextIndex(tail, |slots|), head)
  {
    if tail < head {
      FirstOf(slots, tail, head);
    } else if tail > head {
      FirstOf(slots, tail, |slots|);
      FirstOfTwo(slots[tail..], slots[tail + 1..], slots[..head], slots[tail]);
      if tail + 1 == |slots| {
        assert slots[tail + 1..] + slots[..head] == slots[0..head];
      }
    }
  }

  /** The raw byte ring: the interrupt owns the head, the main loop the tail. */
  class RawReceiveRing {
    const buffer: array<byte>
    var head: nat
    var tail: nat
    var overflowPending: bool
    var bytesDropped: uint32
    /** The endpoint has a buffer for the next packet. */
    var armed: bool
    ghost var arrived: seq<F.Symbol>

    ghost predicate Valid()
      reads this
    {
      buffer.Length == R.RING_SLOTS && head < R.RING_SLOTS && tail < R.RING_SLOTS
    }

    ghost function View(): R.Ring
      reads this, buffer
      requires Valid()
    {
      R.Ring(Circular(buffer[..], tail, head), overflowPending, bytesDropped, arrived)
    }

    constructor ()
      ensures Valid() && fresh(buffer) && View() == R.IDLE.ring
    {
      buffer := new byte[R.RING_SLOTS];
      head, tail, overflowPending, bytesDropped, armed, arrived := 0, 0, false, 0, true, [];
    }

    /** The interrupt's loop body. */
    method StoreByte(b: byte)
      requires Valid()
      modifies this, buffer
      ensures Valid() && View() == R.Store(old(View()), b) && armed == old(armed)
      ensures View().bytes == old(View()).bytes + if |old(View()).bytes| < 511 then [b] else []
      ensures bytesDropped == if |old(View()).bytes| < 511 then old(bytesDropped) else Increment(old(bytesDropped))
    {
      var next := (head + 1) % R.RING_SLOTS;
      ghost var slots, bytes := buffer[..], Circular(buffer[..], tail, head);
      CircularPush(slots, tail, head, b);
      assert next == NextIndex(head, |slots|);
      if next == tail {
        bytesDropped := Increment(bytesDropped);
        overflowPending := true;
        arrived := arrived + [F.Gap];
        assert Circular(buffer[..], tail, head) == bytes;
        return;
      }
      buffer[head] := b;
      assert buffer[..] == slots[head := b];
      head := next;
      arrived := arrived + [F.Data(b)];
      assert Circular(buffer[..], tail, head) == bytes + [b];
    }

    /** Interrupt: one received packet.  Its bytes are stored whether or not the endpoint takes
        the buffer for the next one. */
    method CdcReceive(packet: seq<byte>, bufferSet: bool, packetRequested: bool) returns (ok: bool)
      requires Valid()
      modifies this, buffer
      ensures Valid() && View() == R.StoreAll(old(View()), packet)
      ensures ok == armed == (bufferSet && packetRequested)
    {
      armed := false;
      assert packet[..0] == [];
      for index := 0 to |packet|
        invariant Valid() && View() == R.StoreAll(old(View()), packet[..index]) && !armed
      {
        assert packet[..index + 1][..index] == packet[..index];
        StoreByte(packet[index]);
      }
      assert packet[..|packet|] == packet;
      if !bufferSet || !packetRequested {
        return false;
      }
      armed := true;
      ok := true;
    }

    /** Critical section: the oldest byte together with the overflow flag. */
    method PopReceivedByte() returns (available: bool, b: byte, overflowed: bool)
      requires Valid()
      modifies this
      ensures Valid() && View() == R.Popped(old(View()))
      ensures overflowed == old(overflowPending)
      ensures available == (old(View()).bytes != [])
      ensures available ==> b == old(View()).bytes[0]
    {
      CircularPop(buffer[..], tail, head);
      overflowed, overflowPending := overflowPending, false;
      b := 0;
      if tail == head {
        return false, b, overflowed;
      }
      ghost var rest := Circular(buffer[..], NextIndex(tail, R.RING_SLOTS), head);
      assert ([buffer[tail]] + rest)[1..] == rest;
      available, b := true, buffer[tail];
      tail := (tail + 1) % R.RING_SLOTS;
      assert Circular(buffer[..], tail, head) == rest;
    }
  }

  /** Two slots of complete lines for the application. */
  class ReceivedLines {
    const slots: array<Line>
    var head: nat
    var tail: nat
    var count: nat
    var linesDropped: uint32

    ghost predicate Valid()
      reads this
    {
      && slots.Length == LINE_QUEUE_DEPTH && head < 2 && tail < 2 && count <= 2
      && head == (if count == 1 then 1 - tail else tail)
    }

    ghost function View(): Inbox
      reads this, slots
      requires Valid()
    {
      Inbox(if count == 0 then [] else if count == 1 then [slots[tail]] else [slots[tail], slots[1 - tail]],
            linesDropped)
    }

    constructor ()
      ensures Valid() && fresh(slots) && View() == IDLE.inbound.inbox
    {
      slots := new Line[LINE_QUEUE_DEPTH](_ => []);
      head, tail, count, linesDropped := 0, 0, 0, 0;
    }

    method CompletedLine(line: Line)
      requires Valid()
      modifies this, slots
      ensures Valid() && View() == TransportModel.CompletedLine(old(View()), line)
      ensures View().lines == old(View()).lines + if old(count) < 2 then [line] else []
      ensures linesDropped == if old(count) < 2 then old(linesDropped) else Increment(old(linesDropped))
    {
      if count == LINE_QUEUE_DEPTH {
        linesDropped := Increment(linesDropped);
        return;
      }
      slots[head] := line;
      head := (head + 1) % LINE_QUEUE_DEPTH;
      count := count + 1;
    }

    /** The caller's buffer must have room for a terminating NUL. */
    method ReadLine(destination: array<byte>) returns (result: LineResult, length: nat)
      requires Valid() && destination as object != slots
      modifies this, destination
      ensures Valid() && View() == TransportModel.ReadLine(old(View()), destination.Length)
      ensures result == PeekLine(old(View()), destination.Length)
      ensures result.Unavailable? <==> old(count) == 0
      ensures result.BufferTooSmall? <==> old(count) > 0 && destination.Length <= |old(View()).lines[0]|
      ensures result.Available? ==> old(View()).lines == [result.line] + View().lines
      ensures !result.Available? ==> View() == old(View())
      ensures result.Available? ==>
        length < destination.Length && destination[..length] == result.line && destination[length] == 0
      ensures !result.Available? ==> destination[..] == old(destination[..])
    {
      length := 0;
      if count == 0 {
        return Unavailable, length;
      }
      var line := slots[tail];
      if destination.Length <= |line| {
        return BufferTooSmall, length;
      }
      forall i | 0 <= i < |line| {
        destination[i] := line[i];
      }
      destination[|line|] := 0;
      tail := (tail + 1) % LINE_QUEUE_DEPTH;
      count := count - 1;
      assert destination[..|line|] == line;
      return Available(line), |line|;
    }
  }

  /** Two slots of outgoing lines and the transfer flags. */
  class TransmitLines {
    const slots: array<Line>
    var head: nat
    var tail: nat
    var count: nat
    var active: bool
    var completed: bool
    var linesDropped: uint32
    /** The slot the USB hardware is reading. */
    var onWire: Option<nat>
    ghost var accepted: seq<Line>
    ghost var sent: seq<Line>
    ghost var order: seq<nat>
    ghost var resets: nat

    ghost function View(): T.Transmitter
      reads this, slots
    {
      T.Transmitter(slots[..], head, tail, count, active, completed, linesDropped, onWire, accepted, sent, order,
                    resets)
    }

    ghost predicate Valid()
      reads this, slots
    {
      T.Usable(View())
    }

    constructor ()
      ensures Valid() && fresh(slots) && View() == T.IDLE
    {
      slots := new Line[T.DEPTH](_ => []);
      head, tail, count, active, completed, linesDropped := 0, 0, 0, false, false, 0;
      onWire, accepted, sent, order, resets := None, [], [], [], 0;
    }

    method QueueLine(line: Line) returns (queued: bool)
      requires Valid()
      modifies this, slots
      ensures Valid() && View() == T.QueueLine(old(View()), line)
      ensures queued <==>
              |line| <= 4096 && old(count) < 2 && forall i :: 0 <= i < |line| ==> line[i] != 10 && line[i] != 13
      ensures accepted == old(accepted) + if queued then [line + [10]] else []
      ensures linesDropped == if queued then old(linesDropped) else Increment(old(linesDropped))
    {
      if |line| > F.MAX_LINE_LENGTH || count == T.DEPTH || LF in line || CR in line {
        linesDropped := Increment(linesDropped);
        return false;
      }
      slots[head] := line + [LF];
      head := T.Next(head);
      count := count + 1;
      accepted := accepted + [line + [LF]];
      return true;
    }

    method CanQueueLine() returns (room: bool)
      requires Valid()
      ensures room == T.HasRoom(View())
    {
      room := count < T.DEPTH;
    }

    method FinishCompletedTransmission()
      requires Valid()
      modifies this
      ensures Valid() && View() == T.FinishCompleted(old(View()))
    {
      var wasCompleted := completed;
      completed := false;
      if !wasCompleted || !active {
        return;
      }
      active := false;
      tail := T.Next(tail);
      count := count - 1;
    }

    /** `configured` is the device state; `hardwareAccepts` whether a free endpoint takes the buffer. */
    method StartPendingTransmission(configured: bool, hardwareAccepts: bool)
      requires Valid()
      modifies this
      ensures Valid() && View() == T.StartPending(old(View()), configured, hardwareAccepts)
      ensures onWire != old(onWire) ==> configured && hardwareAccepts && onWire == Some(tail)
    {
      if active || count == 0 || !configured {
        return;
      }
      active := true;
      if onWire.Some? || !hardwareAccepts {
        active := false;
      } else {
        onWire := Some(tail);
      }
    }

    /** Interrupt: the hardware has sent the slot on the wire. */
    method CdcTransmitComplete()
      requires Valid()
      modifies this
      ensures Valid() && View() == T.TransmitComplete(old(View()))
    {
      if onWire.Some? {  // the callback exists only for a transfer the hardware was given
        completed := true;
        sent, order, onWire := sent + [slots[onWire.value]], order + [|accepted| - count], None;
      }
    }

    /** Interrupt: the USB configuration was entered or left; `delivered` says whether the
        computer had already read the transfer this forgets. */
    method CdcReconfigure(delivered: bool)
      requires Valid()
      modifies this
      ensures Valid() && View() == T.Reset(old(View()), delivered)
    {
      if onWire.Some? && delivered {
        sent, order := sent + [slots[onWire.value]], order + [|accepted| - count];
      }
      active, completed := false, false;
      onWire, resets := None, resets + 1;
    }
  }

  lemma OneByte(f: F.Framer, b: byte)
    ensures F.Run(f, F.Symbols([b])) == F.Consume(f, b)
    ensures |F.Consume(f, b).lines| <= |f.lines| + 1
  {
    assert F.Symbols([b]) == [F.Data(b)];
    F.RunOne(f, F.Data(b));
  }

  lemma HandOverIs(inbox: Inbox, before: F.Framer, after: F.Framer, lines: seq<Line>)
    requires after.lines == before.lines + lines && |after.lines| <= |before.lines| + 1
    ensures HandOver(inbox, before, after) ==
            if lines == [] then inbox else TransportModel.CompletedLine(inbox, lines[0])
  {
  }

  /** Reception as the main loop sees it: pop, frame, queue complete lines. */
  class InboundPath {
    const ring: RawReceiveRing
    const framer: FF.NewlineFramer
    const received: ReceivedLines

    ghost predicate Valid()
      reads this, ring, framer, received
    {
      ring.Valid() && framer.Valid() && received.Valid() && ring.buffer != framer.line
    }

    ghost function View(): Inbound
      reads this, ring, ring.buffer, framer, framer.line, received, received.slots
      requires Valid()
    {
      Inbound(R.Receiver(ring.View(), framer.View()), received.View())
    }

    constructor ()
      ensures Valid() && View() == IDLE.inbound
      ensures fresh(ring) && fresh(ring.buffer) && fresh(framer) && fresh(framer.line)
      ensures fresh(received) && fresh(received.slots)
    {
      ring := new RawReceiveRing();
      framer := new FF.NewlineFramer();
      received := new ReceivedLines();
    }

    /** The body of the pop loop: one byte and the flag popped with it. */
    method FrameByte(b: byte, overflowed: bool)
      requires Valid()
      modifies framer, framer.line, received, received.slots
      ensures Valid()
      ensures framer.View() == F.Consume(if overflowed then F.Discard(old(framer.View())) else old(framer.View()), b)
      ensures received.View() == HandOver(old(received.View()), old(framer.View()), framer.View())
    {
      if overflowed {
        framer.DiscardCurrentLine();
      }
      ghost var before := framer.View();
      OneByte(before, b);
      var lines := framer.Consume([b]);
      HandOverIs(received.View(), before, framer.View(), lines);
      if lines != [] {
        received.CompletedLine(lines[0]);
      }
    }

    /** The test of the pop loop and, if it succeeds, the body. */
    method PopAndFrame() returns (available: bool, overflowed: bool)
      requires Valid()
      modifies ring, framer, framer.line, received, received.slots
      ensures Valid()
      ensures var before := old(View());
              && available == (before.receiver.ring.bytes != [])
              && overflowed == before.receiver.ring.overflowPending
              && View() == if available then TakeByte(before) else PopOnly(before)
    {
      var b;
      available, b, overflowed := ring.PopReceivedByte();
      if available {
        FrameByte(b, overflowed);
      }
    }

    /** One turn of the pop loop, with `packet` delivered by the receive interrupt after it. */
    method Turn(packet: seq<byte>) returns (available: bool, overflowed: bool)
      requires Valid()
      modifies ring, ring.buffer, framer, framer.line, received, received.slots
      ensures Valid()
      ensures var before := old(View());
              && available == (before.receiver.ring.bytes != [])
              && overflowed == before.receiver.ring.overflowPending
              && View() == if available then Receive(TakeByte(before), packet) else PopOnly(before)
    {
      available, overflowed := PopAndFrame();
      if available {
        var bufferSet: bool, packetRequested: bool := *, *;
        var rearmed := ring.CdcReceive(packet, bufferSet, packetRequested);
      }
    }

    /** The pop loop; `arrivals[i]` is delivered by the receive interrupt after the i-th pop. */
    method ProcessReceivedBytes(arrivals: seq<seq<byte>>)
      requires Valid()
      modifies ring, ring.buffer, framer, framer.line, received, received.slots
      ensures Valid() && View() == ProcessReceived(old(View()), arrivals)
    {
      var pending, available, overflowed := arrivals, true, false;
      ghost var t := View();
      ghost var goal := ProcessReceived(t, arrivals);
      while available
        invariant Valid()
        invariant available ==> View() == t && ProcessReceived(t, pending) == goal
        invariant !available ==> View() == PopOnly(t) && t.receiver.ring.bytes == [] && TakeByte(t) == goal
        invariant !available ==> overflowed == t.receiver.ring.overflowPending
        decreases |pending|, |t.receiver.ring.bytes|, available
      {
        var packet := if pending == [] then [] else pending[0];
        available, overflowed := Turn(packet);
        if available {
          t := Receive(TakeByte(t), packet);
          pending := if pending == [] then [] else pending[1..];
        }
      }
      if overflowed {
        framer.DiscardCurrentLine();
      }
    }
  }

  class Transport {
    const inbound: InboundPath
    const transmit: TransmitLines

    ghost predicate Valid()
      reads this, inbound, inbound.ring, inbound.framer, inbound.received, transmit, transmit.slots
    {
      inbound.Valid() && transmit.Valid() && inbound.received.slots != transmit.slots
    }

    ghost function View(): TransportModel.Transport
      reads this, inbound, inbound.ring, inbound.ring.buffer, inbound.framer, inbound.framer.line
      reads inbound.received, inbound.received.slots, transmit, transmit.slots
      requires Valid()
    {
      TransportModel.Transport(inbound.View(), transmit.View())
    }

    constructor ()
      ensures Valid() && View() == IDLE
    {
      inbound := new InboundPath();
      transmit := new TransmitLines();
    }

    /** usb_cdc_transport_process: one service turn of the main loop. */
    method Process(arrivals: seq<seq<byte>>, configured: bool, hardwareAccepts: bool)
      requires Valid()
      modifies inbound.ring, inbound.ring.buffer, inbound.framer, inbound.framer.line
      modifies inbound.received, inbound.received.slots, transmit
      ensures Valid()
      ensures View() == TransportModel.Transport(
                ProcessReceived(old(inbound.View()), arrivals),
                T.StartPending(T.FinishCompleted(old(transmit.View())), configured, hardwareAccepts))
    {
      inbound.ProcessReceivedBytes(arrivals);
      transmit.FinishCompletedTransmission();
      transmit.StartPendingTransmission(configured, hardwareAccepts);
    }
  }
}
