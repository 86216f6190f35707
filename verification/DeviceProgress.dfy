/** The main loop itself: each of its iterations is a run of device steps, and once the computer
    stops sending, three of them answer every complete line. */
module DeviceProgress {
  import opened Options
  import opened Bytes
  import opened Device
  import I = TransportModel
  import L = RawLines
  import S = SessionModel
  import T = TransmitPath
  import V = ServiceTurns

  /** The device without its history. */
  datatype Firmware = Firmware(inbound: I.Inbound, session: S.Session, transmitter: T.Transmitter)

  function Parts(d: Device): Firmware {
    Firmware(d.inbound, d.session, d.transmitter)
  }

  /** usb_cdc_transport_process and then session_protocol_process; `arrivals` is what interrupts
      deliver between the pops. */
  function Iteration(m: Firmware, codec: S.Codec, arrivals: seq<seq<byte>>, configured: bool, hardwareAccepts: bool,
                     outcome: S.Outcome): (n: Firmware)
    requires T.Usable(m.transmitter)
    ensures T.Usable(n.transmitter)
  {
    var inbound := I.ProcessReceived(m.inbound, arrivals);
    var transmitter := T.StartPending(T.FinishCompleted(m.transmitter), configured, hardwareAccepts);
    var v := S.ServiceTurn(S.Service(m.session, inbound.inbox, transmitter), codec, outcome);
    Firmware(inbound.(inbox := v.inbox), v.session, v.transmitter)
  }

  /** An iteration while the computer only reads: nothing arrives, and the transfer in progress
      completes before the next one. */
  function QuietIteration(m: Firmware, codec: S.Codec, outcome: S.Outcome): (n: Firmware)
    requires T.Usable(m.transmitter)
    ensures T.Usable(n.transmitter)
  {
    var n := Iteration(m, codec, [], true, true, outcome);
    n.(transmitter := T.TransmitComplete(n.transmitter))
  }

  // ---------------------------------------------------------------- an iteration is a run

  lemma {:induction false} FrontRun(d: Device, codec: S.Codec, steps: seq<Step>)
    requires Front(d, codec) && forall i :: 0 <= i < |steps| ==> !steps[i].Arrival?
    ensures Front(Run(d, codec, steps), codec)
  {
    if steps != [] {
      FrontRun(d, codec, steps[..|steps| - 1]);
      StepKeepsFront(Run(d, codec, steps[..|steps| - 1]), codec, steps[|steps| - 1]);
    }
  }

  lemma RunSnoc(d: Device, codec: S.Codec, steps: seq<Step>, step: Step)
    requires T.Usable(d.transmitter)
    ensures Run(d, codec, steps + [step]) == Take(Run(d, codec, steps), codec, step)
  {
    assert (steps + [step])[..|steps|] == steps;
  }

  lemma TransportIsARun(d: Device, codec: S.Codec, arrivals: seq<seq<byte>>, configured: bool, hardwareAccepts: bool)
    returns (steps: seq<Step>)
    requires T.Usable(d.transmitter)
    ensures arrivals == [] ==> forall i :: 0 <= i < |steps| ==> !steps[i].Arrival?
    ensures var e := Run(d, codec, steps);
            && e.session == d.session && e.inbound == I.ProcessReceived(d.inbound, arrivals)
            && e.transmitter == T.StartPending(T.FinishCompleted(d.transmitter), configured, hardwareAccepts)
            && (arrivals == [] ==> e.stream == d.stream)
  {
    var pops := PopLoopIsARun(d, codec, arrivals);
    steps := pops + [Transmit(T.Finish)];
    RunSnoc(d, codec, pops, Transmit(T.Finish));
    RunSnoc(d, codec, steps, Transmit(T.Start(configured, hardwareAccepts)));
    steps := steps + [Transmit(T.Start(configured, hardwareAccepts))];
    if arrivals == [] {
      PopsSendNothing(d, codec, pops);
    }
  }

  lemma {:induction false} PopsSendNothing(d: Device, codec: S.Codec, pops: seq<Step>)
    requires T.Usable(d.transmitter) && forall i :: 0 <= i < |pops| ==> pops[i] == Pop
    ensures Run(d, codec, pops).stream == d.stream
  {
    if pops != [] {
      PopsSendNothing(d, codec, pops[..|pops| - 1]);
    }
  }

  /** Every iteration of the main loop is such a run, whatever arrives meanwhile. */
  lemma IterationIsARun(d: Device, codec: S.Codec, arrivals: seq<seq<byte>>, configured: bool, hardwareAccepts: bool,
                        outcome: S.Outcome)
    returns (steps: seq<Step>)
    requires T.Usable(d.transmitter)
    ensures arrivals == [] ==> forall i :: 0 <= i < |steps| ==> !steps[i].Arrival?
    ensures Parts(Run(d, codec, steps)) == Iteration(Parts(d), codec, arrivals, configured, hardwareAccepts, outcome)
    ensures arrivals == [] ==> Run(d, codec, steps).stream == d.stream
  {
    var transport := TransportIsARun(d, codec, arrivals, configured, hardwareAccepts);
    var session := SessionTurnIsARun(Run(d, codec, transport), codec, outcome);
    RunAppend(d, codec, transport, session);
    steps := transport + session;
  }

  lemma TransferCompletes(d: Device, codec: S.Codec)
    requires Front(d, codec)
    ensures var e := Take(d, codec, Transmit(T.TransferDone));
            && Front(e, codec) && e.stream == d.stream
            && Parts(e) == Parts(d).(transmitter := T.TransmitComplete(d.transmitter))
  {
    StepKeepsFront(d, codec, Transmit(T.TransferDone));
  }

  lemma IterationKeepsFront(d: Device, codec: S.Codec, outcome: S.Outcome) returns (steps: seq<Step>)
    requires Front(d, codec)
    ensures var e := Run(d, codec, steps);
            Parts(e) == Iteration(Parts(d), codec, [], true, true, outcome) && e.stream == d.stream && Front(e, codec)
  {
    steps := IterationIsARun(d, codec, [], true, true, outcome);
    FrontRun(d, codec, steps);
  }

  lemma QuietIterationIsARun(d: Device, codec: S.Codec, outcome: S.Outcome) returns (steps: seq<Step>)
    requires Front(d, codec)
    ensures var e := Run(d, codec, steps);
            Parts(e) == QuietIteration(Parts(d), codec, outcome) && e.stream == d.stream && Front(e, codec)
  {
    var iteration := IterationKeepsFront(d, codec, outcome);
    TransferCompletes(Run(d, codec, iteration), codec);
    steps := iteration + [Transmit(T.TransferDone)];
    RunSnoc(d, codec, iteration, Transmit(T.TransferDone));
  }

  // ---------------------------------------------------------------- what one iteration gets done

  /** The pop loop empties the ring; from an empty one it completes no line. */
  lemma {:induction false} LoopEmptiesRing(t: I.Inbound)
    ensures I.ProcessReceived(t, []).receiver.ring.bytes == []
    ensures t.receiver.ring.bytes == [] ==> I.ProcessReceived(t, []).inbox == t.inbox
    decreases |t.receiver.ring.bytes|
  {
    if t.receiver.ring.bytes != [] {
      LoopEmptiesRing(I.TakeByte(t));
    }
  }

  /** The transfer in progress has completed. */
  predicate Loaded(t: T.Transmitter) {
    t.active && t.completed
  }

  /** After finish and start, anything queued is on the wire, and a completed transfer has
      made room. */
  lemma FinishAndStart(t: T.Transmitter)
    requires T.Usable(t)
    ensures var u := T.StartPending(T.FinishCompleted(t), true, true);
            (u.count > 0 ==> u.onWire.Some?) && (Loaded(t) ==> T.HasRoom(u))
  {
  }

  /** The transfer in progress goes on, and no more slots are filled than responses said. */
  predicate SameTransfer(t: T.Transmitter, u: T.Transmitter, said: int) {
    && u.onWire == t.onWire && u.active == t.active && u.completed == t.completed
    && t.count <= u.count <= t.count + said
  }

  lemma {:induction false} DrainKeepsTransfer(v: S.Service, codec: S.Codec)
    requires S.Usable(v)
    ensures var w := S.DrainRequests(v, codec);
            SameTransfer(v.transmitter, w.transmitter, |v.inbox.lines| - |w.inbox.lines|)
    decreases |v.inbox.lines|
  {
    if S.RequestReady(v) {
      DrainKeepsTransfer(S.HandleLine(v, codec), codec);
    }
  }

  lemma AdvanceKeepsTransfer(v: S.Service, codec: S.Codec, outcome: S.Outcome)
    requires S.Usable(v)
    ensures var w := S.AdvanceTest(v, codec, outcome);
            w.inbox == v.inbox && SameTransfer(v.transmitter, w.transmitter, 1)
  {
  }

  /** A turn that begins with everything queued on the wire leaves no line, or the completion of
      the transfer will let the next one go on; with a free slot it takes at least one. */
  predicate TurnDone(v: S.Service, w: S.Service) {
    && |w.inbox.lines| <= |v.inbox.lines|
    && (w.inbox.lines == [] || (w.transmitter.onWire.Some? && w.transmitter.active))
    && (T.HasRoom(v.transmitter) && w.inbox.lines != [] ==> |w.inbox.lines| < |v.inbox.lines|)
  }

  lemma TurnTakes(v: S.Service, codec: S.Codec, outcome: S.Outcome)
    requires S.Usable(v) && |v.inbox.lines| <= LINE_BUDGET && (v.transmitter.count > 0 ==> v.transmitter.onWire.Some?)
    requires forall i :: 0 <= i < |v.inbox.lines| ==> |v.inbox.lines[i]| <= 4096
    ensures TurnDone(v, S.ServiceTurn(v, codec, outcome))
  {
    var n := V.TurnServes(v, codec, outcome);
    DrainKeepsTransfer(v, codec);
    AdvanceKeepsTransfer(S.DrainRequests(v, codec), codec, outcome);
    var drained := S.DrainRequests(v, codec);
    if drained.inbox.lines != [] {
      assert drained.inbox.lines[0] == v.inbox.lines[n];
    }
  }

  /** The ring is empty and no line waits unless a transfer has completed; if that was so
      before, fewer lines wait now. */
  predicate Progressed(m: Firmware, n: Firmware) {
    && n.inbound.receiver.ring.bytes == [] && (n.inbound.inbox.lines == [] || Loaded(n.transmitter))
    && (m.inbound.receiver.ring.bytes == [] ==>
          && |n.inbound.inbox.lines| <= |m.inbound.inbox.lines|
          && (Loaded(m.transmitter) && n.inbound.inbox.lines != [] ==>
              |n.inbound.inbox.lines| < |m.inbound.inbox.lines|))
  }

  lemma QuietProgress(d: Device, codec: S.Codec, outcome: S.Outcome)
    requires Front(d, codec)
    ensures Progressed(Parts(d), QuietIteration(Parts(d), codec, outcome))
  {
    var transport := TransportIsARun(d, codec, [], true, true);
    FrontRun(d, codec, transport);
    var e := Run(d, codec, transport);
    LoopEmptiesRing(d.inbound);
    FinishAndStart(d.transmitter);
    WaitingIsSmall(e.inbound, e.stream, Requests(e.log));
    forall i | 0 <= i < |e.inbound.inbox.lines| ensures |e.inbound.inbox.lines[i]| <= 4096 {
      WaitingLineIsShort(e.inbound, e.stream, Requests(e.log), i);
    }
    TurnTakes(Service(e), codec, outcome);
  }

  // ---------------------------------------------------------------- the theorem

  function ThreeIterations(m: Firmware, codec: S.Codec, first: S.Outcome, second: S.Outcome, third: S.Outcome)
    : (n: Firmware)
    requires T.Usable(m.transmitter)
    ensures T.Usable(n.transmitter)
  {
    QuietIteration(QuietIteration(QuietIteration(m, codec, first), codec, second), codec, third)
  }

  lemma NothingWaits(d: Device, codec: S.Codec)
    requires Front(d, codec) && d.inbound.receiver.ring.bytes == [] && d.inbound.inbox.lines == []
    ensures Requests(d.log) == L.Stripped(L.Segments(d.stream))
  {
    assert Popped(d.inbound, d.stream) == d.stream;
    assert Requests(d.log) + [] == Requests(d.log);
  }

  lemma ThreeDone(m: Firmware, m1: Firmware, m2: Firmware, n: Firmware)
    requires Progressed(m, m1) && Progressed(m1, m2) && Progressed(m2, n) && |m1.inbound.inbox.lines| <= LINE_BUDGET
    ensures n.inbound.receiver.ring.bytes == [] && n.inbound.inbox.lines == []
  {
  }

  lemma ThreeSuffice(d: Device, codec: S.Codec, first: S.Outcome, second: S.Outcome, third: S.Outcome)
    returns (steps: seq<Step>)
    requires Front(d, codec)
    ensures var e := Run(d, codec, steps);
            && Parts(e) == ThreeIterations(Parts(d), codec, first, second, third)
            && Front(e, codec) && e.stream == d.stream && Requests(e.log) == L.Stripped(L.Segments(d.stream))
  {
    var one := QuietIterationIsARun(d, codec, first);
    var d1 := Run(d, codec, one);
    var two := QuietIterationIsARun(d1, codec, second);
    var d2 := Run(d1, codec, two);
    var three := QuietIterationIsARun(d2, codec, third);
    var e := Run(d2, codec, three);
    RunAppend(d, codec, one, two);
    RunAppend(d, codec, one + two, three);
    steps := one + two + three;
    QuietProgress(d, codec, first);
    QuietProgress(d1, codec, second);
    QuietProgress(d2, codec, third);
    WaitingIsSmall(d1.inbound, d1.stream, Requests(d1.log));
    ThreeDone(Parts(d), Parts(d1), Parts(d2), Parts(e));
    NothingWaits(e, codec);
  }

  /** After any run within the computer's budget, three iterations of the main loop answer every
      complete line it has sent, whatever the components return meanwhile and whatever becomes of
      the responses' texts: the log that ends in the state the iterations end in has a reply for
      each of those lines, in order, each being what the session answers to its parse. */
  lemma EveryLineIsAnswered(codec: S.Codec, steps: seq<Step>, first: S.Outcome, second: S.Outcome, third: S.Outcome)
    returns (more: seq<Step>)
    requires AllAllowed(codec, steps)
    ensures var d := After(codec, steps); var e := Run(d, codec, more);
            && Parts(e) == ThreeIterations(Parts(d), codec, first, second, third)
            && e.stream == d.stream && Requests(e.log) == L.Stripped(L.Segments(d.stream))
            && e.session.said == Responses(e.log) && Narrated(codec, e.heard, e.log) && e.session == S.After(e.heard)
  {
    InvAlways(codec, steps);
    more := ThreeSuffice(After(codec, steps), codec, first, second, third);
    var e := Run(After(codec, steps), codec, more);
    NarratedMeans(codec, e.heard, e.log);
  }
}
