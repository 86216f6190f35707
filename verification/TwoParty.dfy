/** The host's RUN/STOP exchanges against the device's session, over two lossless queues of
    messages (lossless is what the Device module establishes for a host that never has more
    than one request outstanding). */
module TwoParty {
  import opened Options
  import D = RequestDocuments
  import E = RequestEncoding
  import S = SessionModel

  /** Where the host is inside run_component_test and stop_component_test. */
  datatype Host =
    | Idle
    | AwaitStarted(commandId: int, testType: string)
    | Running(commandId: int, testType: string)
    | AwaitStopped(commandId: int, testType: string)
    | Raised

  /** What a handler callback does: carry on, stop the test, or raise. */
  datatype Choice = Continue | StopTest | Refuse

  /** `toDevice` holds each request as the firmware's parser will see it. */
  datatype System = System(host: Host, device: S.Session, toDevice: seq<Option<D.Request>>, toHost: seq<S.Response>)

  datatype Step =
    | Begin(commandId: int, testType: string, parameters: Option<E.Dictionary>)
    | Read(choice: Choice)
    | Timeout
    | Answer
    | Tick(outcome: S.Outcome)

  const START := System(Idle, S.IDLE, [], [])

  function StopId(commandId: int): int {
    commandId + 1000
  }

  /** The handler's decision after a message that lets the test go on. */
  function Decide(s: System, commandId: int, testType: string, choice: Choice): System {
    match choice
    case Continue => s.(host := Running(commandId, testType))
    case Refuse => s.(host := Raised)
    case StopTest =>
      var request := E.EncodeStop(StopId(commandId));
      if request.None? then s.(host := Raised)
      else s.(host := AwaitStopped(commandId, testType), toDevice := s.toDevice + [D.Parsed(request.value)])
  }

  /** One message decoded where the host is waiting. */
  function Decode(s: System, message: S.Response, choice: Choice): System {
    match s.host
    case AwaitStarted(c, t) =>
      if c >= 0 && message == S.Started(c, t) then Decide(s, c, t, choice) else s.(host := Raised)
    case Running(c, t) =>
      if message.Event? && message.commandId == c && message.testType == t then Decide(s, c, t, choice)
      else if message.Completed? && message.commandId == c && message.testType == t then s.(host := Idle)
      else s.(host := Raised)
    case AwaitStopped(c, t) =>
      if message.Stopped? && message.commandId == StopId(c) && message.testType == t then s.(host := Idle)
      else s.(host := Raised)
    case _ => s
  }

  predicate Reading(host: Host) {
    host.AwaitStarted? || host.Running? || host.AwaitStopped?
  }

  function Take(s: System, step: Step): System {
    match step
    case Begin(c, t, parameters) =>
      var request := E.EncodeRun(c, t, parameters);
      if s.host != Idle then s
      else if request.None? then s.(host := Raised)
      else s.(host := AwaitStarted(c, t), toDevice := s.toDevice + [D.Parsed(request.value)])
    case Read(choice) =>
      if Reading(s.host) && s.toHost != [] then Decode(s.(toHost := s.toHost[1..]), s.toHost[0], choice) else s
    case Timeout =>
      if s.host.AwaitStarted? || s.host.AwaitStopped? then s.(host := Raised) else s
    case Answer =>
      if s.toDevice == [] then s
      else
        s.(device := S.Heard(s.device, s.toDevice[0]), toDevice := s.toDevice[1..],
           toHost := s.toHost + [S.Answer(s.device, s.toDevice[0]).1])
    case Tick(outcome) =>
      var report := S.Advance(s.device, outcome).1;
      s.(device := S.Advanced(s.device, outcome),
         toHost := if report.None? then s.toHost else s.toHost + [report.value])
  }

  function After(steps: seq<Step>): System {
    if steps == [] then START else Take(After(steps[..|steps| - 1]), steps[|steps| - 1])
  }

  // ---------------------------------------------------------------- what is under way

  predicate Chatter(messages: seq<S.Response>, c: int, t: string) {
    forall i :: 0 <= i < |messages| ==> messages[i].Event? && messages[i].commandId == c && messages[i].testType == t
  }

  predicate Completion(m: S.Response, c: int, t: string) {
    m.Completed? && m.commandId == c && m.testType == t
  }

  /** Events of the test, still active; or events and then its completion. */
  predicate Underway(messages: seq<S.Response>, active: Option<S.Test>, c: int, t: string) {
    if active.Some? then active.value.testType == t && active.value.commandId == c && Chatter(messages, c, t)
    else messages != [] && Completion(messages[|messages| - 1], c, t) && Chatter(messages[..|messages| - 1], c, t)
  }

  predicate NoStarted(messages: seq<S.Response>) {
    forall i :: 0 <= i < |messages| ==> !messages[i].Started?
  }

  predicate NoStopped(messages: seq<S.Response>) {
    forall i :: 0 <= i < |messages| ==> !messages[i].Stopped?
  }

  predicate Garbled(requests: seq<Option<D.Request>>) {
    forall i :: 0 <= i < |requests| ==> requests[i].None?
  }

  predicate IsRun(request: Option<D.Request>, c: int, t: string) {
    request.Some? && request.value.kind == D.RunComponentTest && request.value.commandId == c > 0 &&
    request.value.testType == t
  }

  predicate IsStop(request: Option<D.Request>, c: int) {
    request.Some? && request.value.kind == D.StopComponentTest && request.value.commandId == StopId(c)
  }

  predicate StartPending(s: System, c: int, t: string) {
    || (|s.toDevice| == 1 && IsRun(s.toDevice[0], c, t) && s.device.active.None? && s.toHost == [])
    || (s.toDevice == [] && s.toHost != [] && s.toHost[0].Started? && s.toHost[0].commandId == c
        && s.toHost[0].testType == t && Underway(s.toHost[1..], s.device.active, c, t))
    || (Garbled(s.toDevice) && s.device.active.None? && NoStarted(s.toHost))
  }

  predicate StopPending(s: System, c: int, t: string) {
    || (|s.toDevice| == 1 && IsStop(s.toDevice[0], c) && Underway(s.toHost, s.device.active, c, t))
    || (s.toDevice == [] && s.device.active.None? && s.toHost != []
        && s.toHost[|s.toHost| - 1] == S.Stopped(s.toHost[|s.toHost| - 1].commandId, t)
        && s.toHost[|s.toHost| - 1].commandId == StopId(c) && Chatter(s.toHost[..|s.toHost| - 1], c, t))
    || (Garbled(s.toDevice) && NoStopped(s.toHost))
  }

  /** What is in the queues and the device, wherever the host is. */
  predicate Inv(s: System) {
    match s.host
    case Idle => s.device.active.None? && s.toDevice == [] && s.toHost == []
    case AwaitStarted(c, t) => StartPending(s, c, t)
    case Running(c, t) => s.toDevice == [] && Underway(s.toHost, s.device.active, c, t)
    case AwaitStopped(c, t) => StopPending(s, c, t)
    case Raised => true
  }

  // ---------------------------------------------------------------- the steps keep it

  lemma RunRequested(c: int, t: string, parameters: Option<E.Dictionary>)
    requires E.EncodeRun(c, t, parameters).Some?
    ensures var request := D.Parsed(E.EncodeRun(c, t, parameters).value);
            request.None? || IsRun(request, c, t)
  {
    E.RunRoundTrip(c, t, parameters);
  }

  lemma StopRequested(c: int)
    requires E.EncodeStop(StopId(c)).Some?
    ensures var request := D.Parsed(E.EncodeStop(StopId(c)).value);
            request.None? || IsStop(request, c)
  {
    E.StopRoundTrip(StopId(c));
  }

  lemma BeginKeepsInv(s: System, c: int, t: string, parameters: Option<E.Dictionary>)
    requires Inv(s)
    ensures Inv(Take(s, Begin(c, t, parameters)))
  {
    if s.host == Idle && E.EncodeRun(c, t, parameters).Some? {
      RunRequested(c, t, parameters);
    }
  }

  lemma UnderwayRest(messages: seq<S.Response>, active: Option<S.Test>, c: int, t: string)
    requires Underway(messages, active, c, t) && messages != [] && messages[0].Event?
    ensures Underway(messages[1..], active, c, t)
  {
  }

  /** A stop decided while the test is under way. */
  lemma DecideKeepsInv(s: System, c: int, t: string, choice: Choice)
    requires s.toDevice == [] && Underway(s.toHost, s.device.active, c, t)
    ensures Inv(Decide(s, c, t, choice))
  {
    if choice.StopTest? && E.EncodeStop(StopId(c)).Some? {
      StopRequested(c);
      var u := Decide(s, c, t, choice);
      assert |u.toDevice| == 1;
      if u.toDevice[0].None? {
        assert NoStopped(u.toHost);
      }
    }
  }

  lemma ReadStartedKeepsInv(s: System, choice: Choice)
    requires Inv(s) && s.host.AwaitStarted? && s.toHost != []
    ensures Inv(Take(s, Read(choice)))
  {
    var c, t := s.host.commandId, s.host.testType;
    if c >= 0 && s.toHost[0] == S.Started(c, t) {
      DecideKeepsInv(s.(toHost := s.toHost[1..]), c, t, choice);
    }
  }

  lemma ReadRunningKeepsInv(s: System, choice: Choice)
    requires Inv(s) && s.host.Running? && s.toHost != []
    ensures Inv(Take(s, Read(choice)))
  {
    var c, t := s.host.commandId, s.host.testType;
    if s.toHost[0].Event? {
      UnderwayRest(s.toHost, s.device.active, c, t);
      if s.toHost[0].commandId == c && s.toHost[0].testType == t {
        DecideKeepsInv(s.(toHost := s.toHost[1..]), c, t, choice);
      }
    } else {
      assert s.device.active.None? && |s.toHost| == 1;
    }
  }

  lemma ReadStoppedKeepsInv(s: System, choice: Choice)
    requires Inv(s) && s.host.AwaitStopped? && s.toHost != []
    ensures Inv(Take(s, Read(choice)))
  {
  }

  lemma AnswerKeepsInv(s: System)
    requires Inv(s)
    ensures Inv(Take(s, Answer))
  {
  }

  lemma TickKeepsInv(s: System, outcome: S.Outcome)
    requires Inv(s)
    ensures Inv(Take(s, Tick(outcome)))
  {
    var u := Take(s, Tick(outcome));
    if s.device.active.Some? && !outcome.Busy? {
      var report := S.Advance(s.device, outcome).1.value;
      assert u.toHost == s.toHost + [report];
      match s.host
      case AwaitStarted(c, t) =>
        TickUnderway(s.toHost[1..], s.device, outcome, c, t);
        assert u.toHost[1..] == s.toHost[1..] + [report];
      case Running(c, t) => TickUnderway(s.toHost, s.device, outcome, c, t);
      case AwaitStopped(c, t) =>
        if |s.toDevice| == 1 && IsStop(s.toDevice[0], c) {
          TickUnderway(s.toHost, s.device, outcome, c, t);
        }
      case _ =>
    }
  }

  lemma TickUnderway(messages: seq<S.Response>, device: S.Session, outcome: S.Outcome, c: int, t: string)
    requires Underway(messages, device.active, c, t) && device.active.Some? && !outcome.Busy?
    ensures Underway(messages + [S.Advance(device, outcome).1.value], S.Advanced(device, outcome).active, c, t)
  {
  }

  lemma TakeKeepsInv(s: System, step: Step)
    requires Inv(s)
    ensures Inv(Take(s, step))
  {
    match step
    case Begin(c, t, parameters) => BeginKeepsInv(s, c, t, parameters);
    case Read(choice) =>
      if s.toHost != [] {
        if s.host.AwaitStarted? { ReadStartedKeepsInv(s, choice); }
        if s.host.Running? { ReadRunningKeepsInv(s, choice); }
        if s.host.AwaitStopped? { ReadStoppedKeepsInv(s, choice); }
      }
    case Timeout =>
    case Answer => AnswerKeepsInv(s);
    case Tick(outcome) => TickKeepsInv(s, outcome);
  }

  lemma {:induction false} InvAlways(steps: seq<Step>)
    ensures Inv(After(steps))
  {
    if steps != [] {
      InvAlways(steps[..|steps| - 1]);
      TakeKeepsInv(After(steps[..|steps| - 1]), steps[|steps| - 1]);
    }
  }

  /** Whenever the host is between exchanges after returning normally, the device is idle and
      no message is left in either direction. */
  lemma NormalReturnLeavesNothing(steps: seq<Step>)
    requires After(steps).host == Idle
    ensures After(steps).device.active.None? && After(steps).toDevice == [] && After(steps).toHost == []
  {
    InvAlways(steps);
  }

  predicate Refused(m: S.Response) {
    m.Error? && m.code == "test_already_active"
  }

  /** So the device never answers a RUN with test_already_active unless the host has raised. */
  lemma NeverAlreadyActive(steps: seq<Step>)
    requires !After(steps).host.Raised?
    ensures After(steps).toDevice != [] ==> !Refused(S.Answer(After(steps).device, After(steps).toDevice[0]).1)
  {
    InvAlways(steps);
    var s := After(steps);
    if s.toDevice != [] {
      assert s.host.AwaitStarted? || s.host.AwaitStopped?;
      assert "no_active_test" != "test_already_active" && "invalid_request" != "test_already_active";
      assert "unsupported_test_type" != "test_already_active";
    }
  }

  // ---------------------------------------------------------------- the stop handshake

  /** The steps from `s` on, oldest first. */
  function Follow(s: System, steps: seq<Step>): System
    decreases |steps|
  {
    if steps == [] then s else Follow(Take(s, steps[0]), steps[1..])
  }

  /** Following more steps is running them after the ones before. */
  lemma {:induction false} FollowIsRun(before: seq<Step>, steps: seq<Step>)
    ensures Follow(After(before), steps) == After(before + steps)
    decreases |steps|
  {
    if steps == [] {
      assert before + steps == before;
    } else {
      AfterSnoc(before, steps[0]);
      FollowIsRun(before + [steps[0]], steps[1..]);
      assert before + [steps[0]] + steps[1..] == before + steps;
    }
  }

  /** What can happen while the host waits: everything but a new exchange or giving up. */
  predicate Waiting(steps: seq<Step>) {
    forall i :: 0 <= i < |steps| ==> steps[i].Read? || steps[i].Answer? || steps[i].Tick?
  }

  predicate Reports(step: Step) {
    step.Tick? && !step.outcome.Busy?
  }

  /** The component reports nothing before the device takes the request. */
  predicate QuietUntilAnswer(steps: seq<Step>)
    decreases |steps|
  {
    steps == [] || steps[0].Answer? || (!Reports(steps[0]) && QuietUntilAnswer(steps[1..]))
  }

  predicate Acknowledges(m: S.Response, c: int, t: string) {
    m.Stopped? && m.commandId == StopId(c) && m.testType == t
  }

  predicate StopUnderway(s: System, c: int, t: string) {
    s.host == AwaitStopped(c, t) && |s.toDevice| == 1 && IsStop(s.toDevice[0], c) &&
    Underway(s.toHost, s.device.active, c, t)
  }

  /** The next message is decided, so the end of the exchange is. */
  lemma {:induction false} NextMessageDecides(s: System, c: int, t: string, steps: seq<Step>)
    requires s.host == AwaitStopped(c, t) && s.toHost != [] && Waiting(steps)
    ensures Reading(Follow(s, steps).host) ||
            Follow(s, steps).host == if Acknowledges(s.toHost[0], c, t) then Idle else Raised
    decreases |steps|
  {
    if steps != [] {
      var u := Take(s, steps[0]);
      if steps[0].Read? {
        EndedStays(u, steps[1..]);
      } else {
        assert u.host == s.host && u.toHost[0] == s.toHost[0];
        NextMessageDecides(u, c, t, steps[1..]);
      }
    }
  }

  lemma {:induction false} EndedStays(s: System, steps: seq<Step>)
    requires !Reading(s.host) && Waiting(steps)
    ensures Follow(s, steps).host == s.host
    decreases |steps|
  {
    if steps != [] {
      EndedStays(Take(s, steps[0]), steps[1..]);
    }
  }

  /** From a stop request under way, whatever the two sides do until the host is done: it has
      read the acknowledgement exactly when nothing was unread as it asked and the component
      reported nothing until the device took the request. */
  lemma {:induction false} StopReadsAcknowledgementIff(s: System, c: int, t: string, steps: seq<Step>)
    requires StopUnderway(s, c, t) && Waiting(steps) && !Reading(Follow(s, steps).host)
    ensures Follow(s, steps).host == Idle <==> s.toHost == [] && QuietUntilAnswer(steps)
    decreases |steps|
  {
    if s.toHost != [] {
      NextMessageDecides(s, c, t, steps);
    } else {
      var u := Take(s, steps[0]);
      if steps[0].Answer? || Reports(steps[0]) {
        NextMessageDecides(u, c, t, steps[1..]);
      } else {
        assert u == s;
        StopReadsAcknowledgementIff(s, c, t, steps[1..]);
      }
    }
  }

  // ---------------------------------------------------------------- read timeouts

  /** A read that times out raises exactly where an acknowledgement is awaited, and touches
      nothing else. */
  lemma TimeoutRaisesIff(steps: seq<Step>)
    ensures var s, u := After(steps), After(steps + [Timeout]);
            && (u.host == Raised <==> s.host.AwaitStarted? || s.host.AwaitStopped? || s.host == Raised)
            && (u.host != Raised ==> u == s)
            && u.device == s.device && u.toDevice == s.toDevice && u.toHost == s.toHost
  {
    AfterSnoc(steps, Timeout);
  }

  function Timeouts(n: nat): seq<Step> {
    seq(n, _ => Timeout)
  }

  lemma {:induction false} TimeoutsChangeNothing(before: seq<Step>, n: nat)
    requires After(before).host.Running?
    ensures After(before + Timeouts(n)) == After(before)
  {
    if n == 0 {
      assert before + Timeouts(0) == before;
    } else {
      TimeoutsChangeNothing(before, n - 1);
      assert before + Timeouts(n) == (before + Timeouts(n - 1)) + [Timeout];
      AfterSnoc(before + Timeouts(n - 1), Timeout);
    }
  }

  /** While a test runs the host waits indefinitely: any number of timeouts can be put into a run
      there, and it goes on as it would have without them. */
  lemma WaitsIndefinitely(before: seq<Step>, n: nat, later: seq<Step>)
    requires After(before).host.Running?
    ensures After(before + Timeouts(n) + later) == After(before + later)
  {
    TimeoutsChangeNothing(before, n);
    FollowIsRun(before + Timeouts(n), later);
    FollowIsRun(before, later);
  }

  /** Every stop decided in a run is under way, unless the firmware cannot parse it. */
  lemma StopIsUnderway(steps: seq<Step>)
    requires var s, u := After(steps), Take(After(steps), Read(StopTest));
             !s.host.AwaitStopped? && u.host.AwaitStopped? && u.toDevice[|u.toDevice| - 1].Some?
    ensures var u := Take(After(steps), Read(StopTest)); StopUnderway(u, u.host.commandId, u.host.testType)
  {
    InvAlways(steps);
    TakeKeepsInv(After(steps), Read(StopTest));
  }

  lemma AfterSnoc(steps: seq<Step>, step: Step)
    ensures After(steps + [step]) == Take(After(steps), step)
  {
  }
}

/** component_session.py as it runs: the write-then-read loops and the handler callbacks,
    each exchange being a walk of the host through the two-party model. */
module ComponentSession {
  import opened Options
  import D = RequestDocuments
  import E = RequestEncoding
  import S = SessionModel
  import opened TwoParty

  datatype Delivery = Message(message: S.Response) | TimedOut

  type Handler = (Host, S.Response) -> Choice

  /** A stop whose request cannot be written ends like a refusal. */
  function Effective(choice: Choice, stopWritten: bool): Choice {
    if choice == StopTest && !stopWritten then Refuse else choice
  }

  /** The host driven by what the connection delivers until it returns or raises; an exhausted
      script is a connection error.  The second part is what was left unread. */
  function Drive(s: System, script: seq<Delivery>, choose: Handler, stopWritten: bool): (System, seq<Delivery>)
    decreases |script|
  {
    if !Reading(s.host) then (s, script)
    else if script == [] then (s.(host := Raised), [])
    else
      match script[0]
      case TimedOut => Drive(Take(s, Timeout), script[1..], choose, stopWritten)
      case Message(m) => Drive(Decode(s, m, Effective(choose(s.host, m), stopWritten)), script[1..], choose,
                               stopWritten)
  }

  predicate EventOf(delivery: Delivery, c: int, t: string) {
    delivery.Message? && delivery.message.Event? && delivery.message.commandId == c && delivery.message.testType == t
  }

  predicate StoppedOf(delivery: Delivery, stopId: int, t: string) {
    delivery.Message? && delivery.message.Stopped? && delivery.message.commandId == stopId &&
    delivery.message.testType == t
  }

  /** An exchange as a caller may see it returning normally: TEST_STARTED, events and empty read
      slices, and at the end TEST_COMPLETED, or right after one of the messages TEST_STOPPED under
      the stop's identifier, all for this test. */
  predicate Exchange(host: Host, read: seq<Delivery>)
    decreases |read|, 0
  {
    read != [] &&
    match host
    case AwaitStarted(c, t) =>
      c >= 0 && read[0] == Message(S.Started(c, t)) && Goes(c, t, read[1..])
    case Running(c, t) =>
      || (read[0] == TimedOut && Exchange(host, read[1..]))
      || (EventOf(read[0], c, t) && Goes(c, t, read[1..]))
      || (|read| == 1 && read[0].Message? && Completion(read[0].message, c, t))
    case AwaitStopped(c, t) => |read| == 1 && StoppedOf(read[0], c + 1000, t)
    case _ => false
  }

  /** After a message that lets the test go on. */
  predicate Goes(c: int, t: string, read: seq<Delivery>)
    decreases |read|, 1
  {
    Exchange(Running(c, t), read) || Exchange(AwaitStopped(c, t), read)
  }

  /** Whatever the connection delivers and the handler decides, the host returns normally only
      when what it has read is such an exchange, and it has read nothing past its end. */
  lemma {:induction false} ReturnsOnlyAfterAnExchange(s: System, script: seq<Delivery>, choose: Handler,
                                                      stopWritten: bool)
    returns (read: seq<Delivery>)
    requires Reading(s.host) && Drive(s, script, choose, stopWritten).0.host == Idle
    ensures Exchange(s.host, read) && script == read + Drive(s, script, choose, stopWritten).1
    decreases |script|
  {
    var next := match script[0] case TimedOut => Take(s, Timeout)
                                case Message(m) => Decode(s, m, Effective(choose(s.host, m), stopWritten));
    read := [script[0]];
    if Reading(next.host) {
      var more := ReturnsOnlyAfterAnExchange(next, script[1..], choose, stopWritten);
      read := read + more;
      assert read[1..] == more && read[0] == script[0];
    }
  }

  /** Read slices that time out while the test runs are as if they had not been. */
  lemma {:induction false} SlicesPass(s: System, n: nat, script: seq<Delivery>, choose: Handler, stopWritten: bool)
    requires s.host.Running?
    ensures Drive(s, seq(n, _ => TimedOut) + script, choose, stopWritten) == Drive(s, script, choose, stopWritten)
  {
    var slices := seq(n, _ => TimedOut);
    if n == 0 {
      assert slices + script == script;
    } else {
      assert (slices + script)[0] == TimedOut && (slices + script)[1..] == seq(n - 1, _ => TimedOut) + script;
      SlicesPass(s, n - 1, script, choose, stopWritten);
    }
  }

  /** One that times out in place of an acknowledgement ends the exchange. */
  lemma LateAcknowledgementRaises(s: System, script: seq<Delivery>, choose: Handler, stopWritten: bool)
    requires s.host.AwaitStarted? || s.host.AwaitStopped?
    ensures Drive(s, [TimedOut] + script, choose, stopWritten) == (s.(host := Raised), script)
  {
    assert ([TimedOut] + script)[0] == TimedOut && ([TimedOut] + script)[1..] == script;
  }

  /** The connection: messages to come, whether the next writes complete, and the requests
      whose write completed, as the firmware parses them. */
  class MessageLink {
    var script: seq<Delivery>
    var writes: seq<bool>
    var requests: seq<Option<D.Request>>

    constructor (script: seq<Delivery>, writes: seq<bool>)
      ensures this.script == script && this.writes == writes && requests == []
    {
      this.script, this.writes, requests := script, writes, [];
    }

    predicate Writable(n: nat)
      reads this`writes
    {
      n < |writes| && writes[n]
    }

    /** A write that times out or fails raises. */
    method Write(document: seq<D.Member>) returns (written: bool)
      modifies this`requests, this`writes
      ensures written == old(Writable(0))
      ensures requests == if written then old(requests) + [D.Parsed(document)] else old(requests)
      ensures forall n: nat :: Writable(n) == old(Writable(n + 1))
    {
      if writes == [] {
        return false;
      }
      written := writes[0];
      writes := writes[1..];
      if written {
        requests := requests + [D.Parsed(document)];
      }
    }

    /** None when the connection has failed. */
    method Read() returns (delivery: Option<Delivery>)
      modifies this`script
      ensures delivery.None? <==> old(script) == []
      ensures delivery.None? ==> script == []
      ensures delivery.Some? ==> old(script) == [delivery.value] + script
    {
      if script == [] {
        return None;
      }
      delivery := Some(script[0]);
      script := script[1..];
    }
  }

  class ComponentTestClient {
    const link: MessageLink
    const choose: Handler

    constructor (link: MessageLink, choose: Handler)
      ensures this.link == link && this.choose == choose
    {
      this.link, this.choose := link, choose;
    }

    /** The host in a given place, with the link's requests. */
    ghost function At(host: Host): System
      reads link
    {
      System(host, S.IDLE, link.requests, [])
    }

    /** stop_component_test, called from a handler; `c` is the identifier of the run. */
    method StopComponentTest(c: int, t: string) returns (returned: bool)
      modifies link
      ensures (At(if returned then Idle else Raised), link.script)
              == Drive(Decide(old(At(Running(c, t))), c, t, Effective(StopTest, old(link.Writable(0)))),
                       old(link.script), choose, old(link.Writable(0)))
    {
      var request := E.EncodeStop(StopId(c));
      if request.None? {
        return false;
      }
      var written := link.Write(request.value);
      if !written {
        return false;
      }
      ghost var waiting := At(AwaitStopped(c, t));
      var response := link.Read();
      returned := response.Some? && response.value.Message? && response.value.message.Stopped? &&
        response.value.message.commandId == StopId(c) && response.value.message.testType == t;
      assert response.Some? && response.value.TimedOut? ==> Take(waiting, Timeout) == At(Raised);
      assert response.Some? && response.value.Message? ==>
        forall choice :: Decode(waiting, response.value.message, choice) == At(if returned then Idle else Raised);
    }

    /** What a callback decides, and the stop exchange when it decides that. */
    method Callback(c: int, t: string, choice: Choice) returns (ended: bool, returned: bool)
      modifies link
      ensures !ended <==> choice == Continue
      ensures !ended ==> link.script == old(link.script) && link.requests == old(link.requests)
      ensures !ended ==> link.writes == old(link.writes)
      ensures ended ==>
        (At(if returned then Idle else Raised), link.script)
        == Drive(Decide(old(At(Running(c, t))), c, t, Effective(choice, old(link.Writable(0)))), old(link.script),
                 choose, old(link.Writable(0)))
    {
      match choice
      case Continue => return false, false;
      case Refuse => return true, false;
      case StopTest =>
        returned := StopComponentTest(c, t);
        ended := true;
    }

    /** The message loop of run_component_test. */
    method FollowTest(c: int, t: string) returns (returned: bool)
      modifies link
      ensures (At(if returned then Idle else Raised), link.script)
              == Drive(old(At(Running(c, t))), old(link.script), choose, old(link.Writable(0)))
    {
      ghost var goal := Drive(At(Running(c, t)), link.script, choose, link.Writable(0));
      while true
        invariant Drive(At(Running(c, t)), link.script, choose, link.Writable(0)) == goal
        invariant link.writes == old(link.writes)
        decreases |link.script|
      {
        var delivery := link.Read();
        if delivery.None? {
          return false;
        }
        if delivery.value.TimedOut? {
          continue;
        }
        var m := delivery.value.message;
        if m.Event? && m.commandId == c && m.testType == t {
          var ended;
          ended, returned := Callback(c, t, choose(Running(c, t), m));
          if ended {
            return;
          }
        } else {
          return m.Completed? && m.commandId == c && m.testType == t;
        }
      }
    }

    /** From the written request on: the first message, its callback, the message loop. */
    method AwaitStart(c: int, t: string) returns (returned: bool)
      modifies link
      ensures (At(if returned then Idle else Raised), link.script)
              == Drive(old(At(AwaitStarted(c, t))), old(link.script), choose, old(link.Writable(0)))
    {
      ghost var waiting := At(AwaitStarted(c, t));
      var first := link.Read();
      if first.None? || first.value.TimedOut? {
        return false;
      }
      var m := first.value.message;
      if !m.Started? || m.commandId != c || m.testType != t {
        return false;
      }
      var choice := choose(AwaitStarted(c, t), m);
      assert Decode(waiting, m, Effective(choice, link.Writable(0))) ==
             Decide(At(Running(c, t)), c, t, Effective(choice, link.Writable(0)));
      var ended;
      ended, returned := Callback(c, t, choice);
      if !ended {
        returned := FollowTest(c, t);
      }
    }

    /** run_component_test: raises if its request cannot be written, and otherwise returns
        normally or raises exactly as the model's host does, having written the same requests
        and read the same messages. */
    method RunComponentTest(c: int, t: string, parameters: Option<E.Dictionary>) returns (returned: bool)
      modifies link
      ensures var started := Take(old(At(Idle)), Begin(c, t, parameters));
              if E.EncodeRun(c, t, parameters).Some? && !old(link.Writable(0)) then
                !returned && link.script == old(link.script) && link.requests == old(link.requests)
              else
                (At(if returned then Idle else Raised), link.script)
                == Drive(started, old(link.script), choose, old(link.Writable(1)))
    {
      var request := E.EncodeRun(c, t, parameters);
      if request.None? {
        return false;
      }
      var written := link.Write(request.value);
      if !written {
        return false;
      }
      ghost var started := Take(old(At(Idle)), Begin(c, t, parameters));
      assert started == At(AwaitStarted(c, t));
      returned := AwaitStart(c, t);
    }
  }
}
