/** The session protocol: one response per request, at most one active component test. */
module SessionModel {
  import opened Options
  import opened Bytes
  import D = RequestDocuments
  import T = TransmitPath
  import I = TransportModel

  const LINE_CAPACITY: nat := 4097

  const COMPONENT_TYPES: seq<string> := ["status_led_red", "status_led_green", "rgb_led", "imu", "barometer", "sd_card"]

  datatype Test = Test(testType: string, commandId: nat)

  datatype Response =
    | Metadata(commandId: nat)
    | Error(commandId: nat, code: string)
    | Started(commandId: nat, testType: string)
    | Stopped(commandId: nat, testType: string)
    | Event(commandId: nat, testType: string, event: string)
    | Completed(commandId: nat, testType: string, passed: bool)

  /** Calls into the component definitions. */
  datatype ComponentCall = StartCall(testType: string, colour: Option<D.Colour>) | StopCall(testType: string)

  /** What a component's process function returns. */
  datatype Outcome = Busy | Emits(event: string) | Passes | Fails

  /** `calls` and `said` are history: the component calls made and the responses built. */
  datatype Session = Session(active: Option<Test>, calls: seq<ComponentCall>, said: seq<Response>)

  const IDLE := Session(None, [], [])

  /** The text side of the protocol: how a line is parsed, and how a response is formatted
      into the 4097-byte buffer, None when it does not fit. */
  datatype Codec = Codec(parse: Line -> Option<D.Request>, render: Response -> Option<Line>)

  // ---------------------------------------------------------------- one step

  function RunnerStart(s: Session, test: Test, colour: Option<D.Colour>): (Session, bool) {
    if s.active.Some? || test.commandId == 0 then (s, false)
    else (s.(active := Some(test), calls := s.calls + [StartCall(test.testType, colour)]), true)
  }

  function RunnerStop(s: Session): Session {
    if s.active.None? then s
    else s.(active := None, calls := s.calls + [StopCall(s.active.value.testType)])
  }

  /** The state change and the answer for one received line. */
  function Answer(s: Session, request: Option<D.Request>): (Session, Response) {
    match request
    case None => (s, Error(0, "invalid_request"))
    case Some(r) =>
      match r.kind
      case StartTest => (s, Metadata(r.commandId))
      case RunComponentTest =>
        if s.active.Some? then (s, Error(r.commandId, "test_already_active"))
        else if r.testType !in COMPONENT_TYPES then (s, Error(r.commandId, "unsupported_test_type"))
        else (RunnerStart(s, Test(r.testType, r.commandId), r.colour).0, Started(r.commandId, r.testType))
      case StopComponentTest =>
        if s.active.None? then (s, Error(r.commandId, "no_active_test"))
        else (RunnerStop(s), Stopped(r.commandId, s.active.value.testType))
      case _ => (s, Error(r.commandId, "unsupported_message_type"))
  }

  function Heard(s: Session, request: Option<D.Request>): Session {
    var (next, response) := Answer(s, request);
    next.(said := s.said + [response])
  }

  /** One call of the active component's process function. */
  function Advance(s: Session, outcome: Outcome): (Session, Option<Response>) {
    if s.active.None? then (s, None)
    else
      var test := s.active.value;
      match outcome
      case Busy => (s, None)
      case Emits(event) => (s, Some(Event(test.commandId, test.testType, event)))
      case _ => (RunnerStop(s), Some(Completed(test.commandId, test.testType, outcome.Passes?)))
  }

  function Advanced(s: Session, outcome: Outcome): Session {
    var (next, response) := Advance(s, outcome);
    if response.None? then next else next.(said := s.said + [response.value])
  }

  // ---------------------------------------------------------------- every run

  datatype Step = Request(request: Option<D.Request>) | Tick(outcome: Outcome)

  function Take(s: Session, step: Step): Session {
    match step
    case Request(r) => Heard(s, r)
    case Tick(outcome) => Advanced(s, outcome)
  }

  function After(steps: seq<Step>): Session {
    if steps == [] then IDLE else Take(After(steps[..|steps| - 1]), steps[|steps| - 1])
  }

  /** Requests the parser can return: what some document parses to. */
  ghost predicate FromParser(request: Option<D.Request>) {
    request.None? || exists doc :: D.Parsed(doc) == request
  }

  ghost predicate Parseable(steps: seq<Step>) {
    forall i :: 0 <= i < |steps| && steps[i].Request? ==> FromParser(steps[i].request)
  }

  lemma ParserFacts(r: D.Request)
    requires FromParser(Some(r))
    ensures r.commandId > 0 && r.kind != D.Unsupported && r.kind != D.Invalid
  {
    var doc :| D.Parsed(doc) == Some(r);
    D.ParsedIsKnown(doc);
  }

  /** The result the session ignores when it starts a component is always true, and the
      branch for unsupported message types is never taken. */
  lemma IgnoredResultIsTrue(s: Session, r: D.Request)
    requires FromParser(Some(r))
    ensures r.kind == D.RunComponentTest && s.active.None? ==> RunnerStart(s, Test(r.testType, r.commandId), r.colour).1
    ensures Answer(s, Some(r)).1 != Error(r.commandId, "unsupported_message_type")
  {
    ParserFacts(r);
    assert "unsupported_message_type" != "unsupported_test_type";
    assert |"unsupported_message_type"| != |"no_active_test"|;
  }

  // ---------------------------------------------------------------- the lifecycle

  datatype Ending = ByCompletion(passed: bool) | ByStop(stopId: nat)

  /** One accepted RUN from its TEST_STARTED to its end. */
  datatype Episode = Episode(test: Test, events: seq<string>, ending: Ending)

  function Opening(test: Test, events: seq<string>): seq<Response> {
    if events == [] then [Started(test.commandId, test.testType)]
    else Opening(test, events[..|events| - 1]) + [Event(test.commandId, test.testType, events[|events| - 1])]
  }

  function Closing(test: Test, ending: Ending): Response {
    match ending
    case ByCompletion(passed) => Completed(test.commandId, test.testType, passed)
    case ByStop(stopId) => Stopped(stopId, test.testType)
  }

  function Transcript(episodes: seq<Episode>): seq<Response> {
    if episodes == [] then []
    else
      var last := episodes[|episodes| - 1];
      Transcript(episodes[..|episodes| - 1]) + Opening(last.test, last.events) + [Closing(last.test, last.ending)]
  }

  /** Everything said except errors and session metadata. */
  function Lifecycle(said: seq<Response>): seq<Response> {
    if said == [] then []
    else
      var last := said[|said| - 1];
      Lifecycle(said[..|said| - 1]) + (if last.Error? || last.Metadata? then [] else [last])
  }

  /** The component calls of these episodes: start and stop of the same definition in turn. */
  predicate Called(calls: seq<ComponentCall>, episodes: seq<Episode>, open: Option<Test>)
    decreases |calls|
  {
    match open
    case Some(test) =>
      && calls != [] && calls[|calls| - 1].StartCall? && calls[|calls| - 1].testType == test.testType
      && Called(calls[..|calls| - 1], episodes, None)
    case None =>
      if episodes == [] then calls == []
      else
        && calls != [] && calls[|calls| - 1] == StopCall(episodes[|episodes| - 1].test.testType)
        && Called(calls[..|calls| - 1], episodes[..|episodes| - 1], Some(episodes[|episodes| - 1].test))
  }

  /** What has been said of the test in progress. */
  function InProgress(active: Option<Test>, events: seq<string>): seq<Response> {
    if active.None? then [] else Opening(active.value, events)
  }

  ghost predicate Told(s: Session, episodes: seq<Episode>, events: seq<string>) {
    && Lifecycle(s.said) == Transcript(episodes) + InProgress(s.active, events)
    && Called(s.calls, episodes, s.active)
    && (s.active.Some? ==> s.active.value.commandId > 0 && s.active.value.testType in COMPONENT_TYPES)
    && forall e :: e in episodes ==> e.test.commandId > 0 && e.test.testType in COMPONENT_TYPES
  }

  /** A test starts. */
  lemma ToldStart(s: Session, episodes: seq<Episode>, events: seq<string>, r: D.Request)
    requires Told(s, episodes, events) && s.active.None? && r.commandId > 0 && r.kind == D.RunComponentTest
    requires r.testType in COMPONENT_TYPES
    ensures Told(Heard(s, Some(r)), episodes, [])
  {
  }

  /** The active test ends. */
  lemma ToldEnd(s: Session, episodes: seq<Episode>, events: seq<string>, next: Session, ending: Ending)
    requires Told(s, episodes, events) && s.active.Some?
    requires next == RunnerStop(s).(said := s.said + [Closing(s.active.value, ending)])
    ensures Told(next, episodes + [Episode(s.active.value, events, ending)], [])
  {
  }

  lemma ToldEvent(s: Session, episodes: seq<Episode>, events: seq<string>, event: string)
    requires Told(s, episodes, events) && s.active.Some?
    ensures Told(Advanced(s, Emits(event)), episodes, events + [event])
  {
  }

  lemma ToldAside(s: Session, episodes: seq<Episode>, events: seq<string>, r: Response)
    requires Told(s, episodes, events) && (r.Error? || r.Metadata?)
    ensures Told(s.(said := s.said + [r]), episodes, events)
  {
  }

  lemma ToldHeard(s: Session, episodes: seq<Episode>, events: seq<string>, request: Option<D.Request>)
    returns (episodes': seq<Episode>, events': seq<string>)
    requires Told(s, episodes, events) && FromParser(request)
    ensures Told(Heard(s, request), episodes', events')
  {
    episodes', events' := episodes, events;
    if request.Some? {
      var r := request.value;
      ParserFacts(r);
      if r.kind == D.RunComponentTest && s.active.None? && r.testType in COMPONENT_TYPES {
        ToldStart(s, episodes, events, r);
        events' := [];
        return;
      }
      if r.kind == D.StopComponentTest && s.active.Some? {
        ToldEnd(s, episodes, events, Heard(s, request), ByStop(r.commandId));
        episodes', events' := episodes + [Episode(s.active.value, events, ByStop(r.commandId))], [];
        return;
      }
    }
    ToldAside(s, episodes, events, Answer(s, request).1);
  }

  lemma ToldTick(s: Session, episodes: seq<Episode>, events: seq<string>, outcome: Outcome)
    returns (episodes': seq<Episode>, events': seq<string>)
    requires Told(s, episodes, events)
    ensures Told(Advanced(s, outcome), episodes', events')
  {
    episodes', events' := episodes, events;
    if s.active.Some? {
      match outcome
      case Busy =>
      case Emits(event) =>
        ToldEvent(s, episodes, events, event);
        events' := events + [event];
      case _ =>
        var ending := ByCompletion(outcome.Passes?);
        ToldEnd(s, episodes, events, Advanced(s, outcome), ending);
        episodes', events' := episodes + [Episode(s.active.value, events, ending)], [];
    }
  }

  /** Every run, per accepted RUN: TEST_STARTED, events, then one TEST_COMPLETED or one
      TEST_STOPPED, all with the run's own identifier and type except the stop's, which
      carries the stop request's; episodes never overlap, and the component calls are start
      and stop of the same definition in turn. */
  lemma {:induction false} EveryRunTellsEpisodes(steps: seq<Step>) returns (episodes: seq<Episode>, events: seq<string>)
    requires Parseable(steps)
    ensures Told(After(steps), episodes, events)
  {
    if steps == [] {
      episodes, events := [], [];
    } else {
      var before, last := steps[..|steps| - 1], steps[|steps| - 1];
      episodes, events := EveryRunTellsEpisodes(before);
      match last
      case Request(r) => episodes, events := ToldHeard(After(before), episodes, events, r);
      case Tick(outcome) => episodes, events := ToldTick(After(before), episodes, events, outcome);
    }
  }

  // ---------------------------------------------------------------- service turns

  /** The session with the transport's two line queues. */
  datatype Service = Service(session: Session, inbox: I.Inbox, transmitter: T.Transmitter)

  ghost predicate Usable(v: Service) {
    T.Usable(v.transmitter)
  }

  function Queued(t: T.Transmitter, line: Option<Line>): (u: T.Transmitter)
    requires T.Usable(t)
    ensures T.Usable(u)
  {
    if line.None? then t else T.QueueLine(t, line.value)
  }

  /** One turn of the request loop: read, parse, answer, queue. */
  function HandleLine(v: Service, codec: Codec): (w: Service)
    requires Usable(v) && v.inbox.lines != []
    ensures Usable(w)
  {
    var (next, response) := Answer(v.session, codec.parse(v.inbox.lines[0]));
    Service(next.(said := v.session.said + [response]), I.ReadLine(v.inbox, LINE_CAPACITY),
            Queued(v.transmitter, codec.render(response)))
  }

  /** A request is taken only when its response has somewhere to go. */
  predicate RequestReady(v: Service) {
    T.HasRoom(v.transmitter) && I.PeekLine(v.inbox, LINE_CAPACITY).Available?
  }

  function DrainRequests(v: Service, codec: Codec): (w: Service)
    requires Usable(v)
    ensures Usable(w)
    decreases |v.inbox.lines|
  {
    if RequestReady(v) then DrainRequests(HandleLine(v, codec), codec) else v
  }

  function AdvanceTest(v: Service, codec: Codec, outcome: Outcome): (w: Service)
    requires Usable(v)
    ensures Usable(w)
  {
    if !T.HasRoom(v.transmitter) || v.session.active.None? then v
    else
      var (next, response) := Advance(v.session, outcome);
      if response.None? then v.(session := next)
      else
        Service(next.(said := v.session.said + [response.value]), v.inbox,
                Queued(v.transmitter, codec.render(response.value)))
  }

  /** session_protocol_process. */
  function ServiceTurn(v: Service, codec: Codec, outcome: Outcome): Service
    requires Usable(v)
  {
    AdvanceTest(DrainRequests(v, codec), codec, outcome)
  }
}

/** session_protocol.c and component_test_runner.c as they run. */
module SessionProtocol {
  import opened Options
  import opened Bytes
  import opened SessionModel
  import C = Conversation
  import D = RequestDocuments
  import U = UsbCdcTransport

  /** component_registry_find: a linear search by name. */
  method FindDefinition(name: string) returns (definition: Option<string>)
    ensures definition.Some? <==>
            name in {"status_led_red", "status_led_green", "rgb_led", "imu", "barometer", "sd_card"}
    ensures definition.Some? <==> name in COMPONENT_TYPES
    ensures definition.Some? ==> definition.value == name
  {
    for index := 0 to |COMPONENT_TYPES|
      invariant name !in COMPONENT_TYPES[..index]
    {
      if COMPONENT_TYPES[index] == name {
        return Some(COMPONENT_TYPES[index]);
      }
    }
    assert COMPONENT_TYPES[..|COMPONENT_TYPES|] == COMPONENT_TYPES;
    definition := None;
  }

  class ComponentTestRunner {
    var activeDefinition: Option<string>
    var activeCommandId: nat
    ghost var calls: seq<ComponentCall>

    constructor ()
      ensures Active() == None && calls == []
    {
      activeDefinition, activeCommandId, calls := None, 0, [];
    }

    ghost function Active(): Option<Test>
      reads this
    {
      if activeDefinition.None? then None else Some(Test(activeDefinition.value, activeCommandId))
    }

    ghost function View(said: seq<Response>): Session
      reads this
    {
      Session(Active(), calls, said)
    }

    method Start(definition: Option<string>, commandId: nat, colour: Option<D.Colour>) returns (ok: bool)
      modifies this
      ensures definition.Some? ==>
        forall said :: (View(said), ok) == RunnerStart(old(View(said)), Test(definition.value, commandId), colour)
      ensures definition.None? ==> !ok && Active() == old(Active()) && calls == old(calls)
      ensures ok <==> definition.Some? && old(Active()).None? && commandId != 0
      ensures ok ==> calls == old(calls) + [StartCall(definition.value, colour)]
    {
      if activeDefinition.Some? || definition.None? || commandId == 0 {
        return false;
      }
      activeDefinition, activeCommandId := definition, commandId;
      calls := calls + [StartCall(definition.value, colour)];
      ok := true;
    }

    /** `outcome` is what the active definition's process function returns. */
    method Process(outcome: Outcome) returns (update: Outcome)
      modifies this
      ensures update == if old(Active()).None? then Busy else outcome
      ensures forall said :: View(said) == Advance(old(View(said)), outcome).0
    {
      if activeDefinition.None? || outcome.Busy? {
        return Busy;
      }
      if outcome.Emits? {
        return outcome;
      }
      calls := calls + [StopCall(activeDefinition.value)];
      activeDefinition, activeCommandId := None, 0;
      update := outcome;
    }

    method Stop() returns (ok: bool)
      modifies this
      ensures ok == old(Active()).Some?
      ensures forall said :: View(said) == RunnerStop(old(View(said)))
    {
      if activeDefinition.None? {
        return false;
      }
      var definition := activeDefinition.value;
      activeDefinition, activeCommandId := None, 0;
      calls := calls + [StopCall(definition)];
      ok := true;
    }
  }

  class SessionProtocol {
    const runner: ComponentTestRunner
    const received: U.ReceivedLines
    const transmit: U.TransmitLines
    const lineBuffer: array<byte>
    const codec: Codec
    ghost var said: seq<Response>

    constructor (received: U.ReceivedLines, transmit: U.TransmitLines, codec: Codec)
      requires received.Valid() && transmit.Valid() && received.slots != transmit.slots
      ensures Valid() && View() == Service(IDLE, old(received.View()), old(transmit.View()))
    {
      this.received, this.transmit, this.codec := received, transmit, codec;
      runner := new ComponentTestRunner();
      lineBuffer := new byte[LINE_CAPACITY];
      said := [];
    }

    ghost predicate Valid()
      reads received, transmit, transmit.slots
    {
      && received.Valid() && transmit.Valid() && received.slots != transmit.slots
      && lineBuffer as object != received.slots && lineBuffer as object != transmit.slots
      && lineBuffer.Length == LINE_CAPACITY
    }

    ghost function View(): Service
      reads this, runner, received, received.slots, transmit, transmit.slots
      requires Valid()
    {
      Service(runner.View(said), received.View(), transmit.View())
    }

    method QueueResponse(response: Response)
      requires Valid()
      modifies this`said, transmit, transmit.slots
      ensures Valid() && transmit.View() == Queued(old(transmit.View()), codec.render(response))
      ensures said == old(said) + [response]
    {
      var line := codec.render(response);
      if line.Some? {
        var queued := transmit.QueueLine(line.value);
      }
      said := said + [response];
    }

    method RunRequest(r: D.Request) returns (response: Response)
      requires r.kind == D.RunComponentTest
      modifies runner
      ensures (runner.View(said), response) == Answer(old(runner.View(said)), Some(r))
    {
      if runner.activeDefinition.Some? {
        return Error(r.commandId, "test_already_active");
      }
      var definition := FindDefinition(r.testType);
      if definition.None? {
        return Error(r.commandId, "unsupported_test_type");
      }
      var started := runner.Start(definition, r.commandId, r.colour);
      response := Started(r.commandId, definition.value);
    }

    method StopRequest(r: D.Request) returns (response: Response)
      requires r.kind == D.StopComponentTest
      modifies runner
      ensures (runner.View(said), response) == Answer(old(runner.View(said)), Some(r))
    {
      if runner.activeDefinition.None? {
        return Error(r.commandId, "no_active_test");
      }
      var activeType := runner.activeDefinition.value;
      var stopped := runner.Stop();
      response := Stopped(r.commandId, activeType);
    }

    method ProcessLine(line: Line)
      requires Valid()
      modifies this`said, runner, transmit, transmit.slots
      ensures Valid() && received.View() == old(received.View())
      ensures runner.View(said) == Heard(old(runner.View(said)), codec.parse(line))
      ensures transmit.View() ==
              Queued(old(transmit.View()), codec.render(Answer(old(runner.View(said)), codec.parse(line)).1))
    {
      var request := codec.parse(line);
      var response;
      ghost var before := runner.View(said);
      if request.None? {
        response := Error(0, "invalid_request");
      } else {
        var r := request.value;
        match r.kind {
          case StartTest => response := Metadata(r.commandId);
          case RunComponentTest => response := RunRequest(r);
          case StopComponentTest => response := StopRequest(r);
          case _ => response := Error(r.commandId, "unsupported_message_type");
        }
      }
      ghost var next := runner.View(before.said);
      assert (next, response) == Answer(before, request);
      QueueResponse(response);
      assert runner.View(before.said) == next;
    }

    /** session_protocol_process is the service turn. */
    method Process(outcome: Outcome)
      requires Valid()
      modifies this`said, runner, lineBuffer, received, transmit, transmit.slots
      ensures Valid() && View() == ServiceTurn(old(View()), codec, outcome)
      ensures transmit.count == 2 || received.count == 0 || |received.View().lines[0]| > 4096
    {
      ghost var goal := DrainRequests(View(), codec);
      while true
        invariant Valid() && DrainRequests(View(), codec) == goal
        decreases received.count
      {
        var room := transmit.CanQueueLine();
        if !room {
          break;
        }
        var result, length := received.ReadLine(lineBuffer);
        if !result.Available? {
          break;
        }
        ProcessLine(lineBuffer[..length]);
      }
      AdvanceActiveTest(outcome);
    }

    method AdvanceActiveTest(outcome: Outcome)
      requires Valid()
      modifies this`said, runner, transmit, transmit.slots
      ensures Valid() && View() == AdvanceTest(old(View()), codec, outcome)
      ensures said == old(said) + if old(transmit.count) < 2 then C.Report(old(runner.Active()), outcome) else []
      ensures runner.Active() ==
              if old(transmit.count) < 2 && (outcome.Passes? || outcome.Fails?) then None else old(runner.Active())
    {
      var room := transmit.CanQueueLine();
      if room && runner.activeDefinition.Some? {
        var activeType, commandId := runner.activeDefinition.value, runner.activeCommandId;
        var update := runner.Process(outcome);
        if update.Emits? {
          QueueResponse(Event(commandId, activeType, update.event));
        } else if !update.Busy? {
          QueueResponse(Completed(commandId, activeType, update.Passes?));
        }
      }
    }
  }
}
