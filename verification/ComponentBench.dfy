/** The two-party protocol with the six registered components on the device and their own
    handlers on the host: which component types always get their stop acknowledged. */
module ComponentBench {
  import opened Options
  import opened Bytes
  import D = RequestDocuments
  import E = RequestEncoding
  import S = SessionModel
  import K = Ticks
  import T = SampleTiming
  import opened TwoParty

  const PROMPT: string := "rgb_colour_active"

  /** rgb_led_test.c's states. */
  datatype Led = ColourReady | Active | Broken

  /** The active component's state. */
  datatype Component = StatusLed | Rgb(led: Led) | Imu(sensor: T.Sensor) | Barometer(sensor: T.Sensor) | SdCard

  /** A live-operator handler: whether it has prompted, the answers being typed, the answers
      given. */
  datatype Operator = Operator(prompted: bool, typing: nat, given: nat)

  /** `now` is true time in milliseconds. */
  datatype Bench = Bench(system: System, component: Component, operator: Operator, now: nat)

  /** `leftover` is what an earlier test left in the sensor's timer; `works` is the hardware's
      answer, `card` what the SD-card test returns. */
  datatype BenchStep =
    | BeginTest(commandId: int, testType: string, parameters: Option<E.Dictionary>)
    | HandleMessage
    | ReadTimeout
    | OperatorAnswers
    | AnswerRequest(works: bool, leftover: uint32)
    | Process(elapsed: nat, works: bool, card: S.Outcome)

  const FRESH_OPERATOR := Operator(false, 0, 0)
  const FRESH := Bench(START, StatusLed, FRESH_OPERATOR, 0)

  // ---------------------------------------------------------------- the device's components

  function Started(testType: string, works: bool, leftover: uint32): Component {
    if testType == "rgb_led" then Rgb(if works then ColourReady else Broken)
    else if testType == "imu" then Imu(T.Begun(leftover))
    else if testType == "barometer" then Barometer(T.Begun(leftover))
    else if testType == "sd_card" then SdCard
    else StatusLed
  }

  /** rgb_led_test_process. */
  function LedProcess(led: Led): (Led, S.Outcome) {
    match led
    case Broken => (led, S.Fails)
    case ColourReady => (Active, S.Emits(PROMPT))
    case Active => (led, S.Busy)
  }

  function SensorOutcome(outcome: T.Outcome, sample: string): S.Outcome {
    match outcome
    case Running => S.Busy
    case Announced(name) => S.Emits(name)
    case Sampled => S.Emits(sample)
    case Reported => S.Emits("component_failure")
    case Failed => S.Fails
  }

  function ComponentProcess(component: Component, call: T.Call, card: S.Outcome): (Component, S.Outcome) {
    match component
    case StatusLed => (component, S.Busy)
    case Rgb(led) => var (next, outcome) := LedProcess(led); (Rgb(next), outcome)
    case Imu(sensor) =>
      var (next, outcome) := T.ProcessImu(sensor, call); (Imu(next), SensorOutcome(outcome, "imu_sample"))
    case Barometer(sensor) =>
      var (next, outcome) := T.ProcessBarometer(sensor, call);
          (Barometer(next), SensorOutcome(outcome, "barometer_sample"))
    case SdCard => (component, card)
  }

  // ---------------------------------------------------------------- the host's handlers

  /** handle_event of the live-operator handlers. */
  function LiveEvent(o: Operator, ready: bool): (Operator, Choice) {
    var told := if ready && !o.prompted then o.(prompted := true, typing := o.typing + 1) else o;
    if told.given > 0 then (told.(given := told.given - 1), StopTest) else (told, Continue)
  }

  predicate IsStatusLed(t: string) {
    t == "status_led_red" || t == "status_led_green"
  }

  /** What the handler of the test does with a message that lets it go on. */
  function Handler(o: Operator, host: Host, message: S.Response): (Operator, Choice) {
    if !message.Event? then
      (o, if host.AwaitStarted? && IsStatusLed(host.testType) then StopTest else Continue)
    else if message.testType == "rgb_led" then (o, if message.event == PROMPT then StopTest else Continue)
    else if message.testType == "imu" then LiveEvent(o, message.event == "imu_ready")
    else if message.testType == "barometer" then LiveEvent(o, message.event == "barometer_ready")
    else (o, Continue)
  }

  function TakeStep(b: Bench, step: BenchStep): Bench {
    match step
    case BeginTest(c, t, parameters) =>
      if b.system.host != Idle then b
      else b.(system := Take(b.system, Begin(c, t, parameters)), operator := FRESH_OPERATOR)
    case HandleMessage =>
      if b.system.toHost == [] || !Reading(b.system.host) then b
      else if b.system.host.AwaitStopped? then b.(system := Take(b.system, Read(Continue)))
      else
        var (next, choice) := Handler(b.operator, b.system.host, b.system.toHost[0]);
        b.(system := Take(b.system, Read(choice)), operator := next)
    case ReadTimeout => b.(system := Take(b.system, Timeout))
    case OperatorAnswers =>
      if b.operator.typing == 0 then b
      else b.(operator := b.operator.(typing := b.operator.typing - 1, given := b.operator.given + 1))
    case AnswerRequest(works, leftover) =>
      var next := Take(b.system, Answer);
      if b.system.device.active.None? && next.device.active.Some?
      then b.(system := next, component := Started(next.device.active.value.testType, works, leftover))
      else b.(system := next)
    case Process(elapsed, works, card) =>
      var now := b.now + elapsed;
      if b.system.device.active.None? then b.(now := now)
      else
        var (next, outcome) := ComponentProcess(b.component, T.Call(now, works), card);
        Bench(Take(b.system, Tick(outcome)), next, b.operator, now)
  }

  function BenchRun(b: Bench, steps: seq<BenchStep>): Bench {
    if steps == [] then b else TakeStep(BenchRun(b, steps[..|steps| - 1]), steps[|steps| - 1])
  }

  function BenchAfter(steps: seq<BenchStep>): Bench {
    BenchRun(FRESH, steps)
  }

  /** Requests the firmware understands, their stop included, for a registered type. */
  predicate Understood(step: BenchStep) {
    step.BeginTest? ==>
      && 0 < step.commandId && StopId(step.commandId) <= D.UINT32_MAX && step.testType in S.COMPONENT_TYPES
      && (step.parameters.Some? <==> step.testType == "rgb_led")
      && (step.parameters.Some? ==> E.IsRgbDictionary(step.parameters.value))
  }

  predicate AllUnderstood(steps: seq<BenchStep>) {
    forall i :: 0 <= i < |steps| ==> Understood(steps[i])
  }

  predicate LiveType(t: string) {
    t == "imu" || t == "barometer"
  }

  /** No test of a live-operator type is begun. */
  predicate NoneLive(steps: seq<BenchStep>) {
    forall i :: 0 <= i < |steps| && steps[i].BeginTest? ==> !LiveType(steps[i].testType)
  }

  predicate AwaitsAcknowledgement(host: Host) {
    host.AwaitStarted? || host.AwaitStopped?
  }

  /** Acknowledgements come in time; while a test runs any number of reads may time out. */
  predicate AnsweredInTime(steps: seq<BenchStep>) {
    forall i :: 0 <= i < |steps| && steps[i].ReadTimeout? ==> !AwaitsAcknowledgement(BenchAfter(steps[..i]).system.host)
  }

  // ---------------------------------------------------------------- the types that are always acknowledged

  /** What a test that has started may have queued, by the component's state. */
  predicate Queued(b: Bench, messages: seq<S.Response>, c: nat, t: string) {
    var active := b.system.device.active;
    if t == "sd_card" then Underway(messages, active, c, t) && (active.Some? ==> b.component == SdCard)
    else if active.None? then t == "rgb_led" && messages == [S.Completed(c, t, false)]
    else if t == "rgb_led" then
      && b.component.Rgb? && active == Some(S.Test(t, c))
      && (if b.component.led == Active then messages == [S.Event(c, t, PROMPT)] else messages == [])
    else b.component == StatusLed && active == Some(S.Test(t, c)) && messages == []
  }

  predicate Calm(t: string) {
    t in S.COMPONENT_TYPES && !LiveType(t)
  }

  predicate CalmStarting(b: Bench, c: int, t: string) {
    var s := b.system;
    && 0 < c && StopId(c) <= D.UINT32_MAX
    && (if s.toDevice != [] then
          |s.toDevice| == 1 && IsRun(s.toDevice[0], c, t) && s.device.active.None? && s.toHost == []
        else s.toHost != [] && s.toHost[0] == S.Started(c, t) && Queued(b, s.toHost[1..], c, t))
  }

  predicate CalmRunning(b: Bench, c: int, t: string) {
    && 0 < c && StopId(c) <= D.UINT32_MAX && b.system.toDevice == [] && Queued(b, b.system.toHost, c, t)
  }

  predicate CalmStopping(b: Bench, c: int, t: string) {
    var s := b.system;
    && 0 < c
    && (if s.toDevice != [] then
          && |s.toDevice| == 1 && IsStop(s.toDevice[0], c) && s.toHost == []
          && s.device.active == Some(S.Test(t, c)) && (b.component == StatusLed || b.component == Rgb(Active))
        else s.device.active.None? && s.toHost == [S.Stopped(StopId(c), t)])
  }

  predicate CalmInv(b: Bench) {
    var s := b.system;
    match s.host
    case Idle => s.device.active.None? && s.toDevice == [] && s.toHost == []
    case AwaitStarted(c, t) => Calm(t) && CalmStarting(b, c, t)
    case Running(c, t) => (t == "rgb_led" || t == "sd_card") && CalmRunning(b, c, t)
    case AwaitStopped(c, t) => CalmStopping(b, c, t)
    case Raised => false
  }

  lemma CalmTypesKnown(t: string)
    requires Calm(t)
    ensures 0 < |t| <= 31 && E.IsHostTestType(t)
  {
  }

  lemma BeginKeepsCalm(b: Bench, step: BenchStep)
    requires CalmInv(b) && step.BeginTest? && Understood(step) && !LiveType(step.testType)
    ensures CalmInv(TakeStep(b, step))
  {
    if b.system.host == Idle {
      CalmTypesKnown(step.testType);
      E.RunRoundTrip(step.commandId, step.testType, step.parameters);
    }
  }

  lemma StopSent(s: System, c: int, t: string)
    requires 0 < c && StopId(c) <= D.UINT32_MAX && s.toDevice == []
    ensures var u := Decide(s, c, t, StopTest);
            && u.host == AwaitStopped(c, t) && |u.toDevice| == 1 && IsStop(u.toDevice[0], c)
            && u.toHost == s.toHost && u.device == s.device
  {
    E.StopRoundTrip(StopId(c));
  }

  lemma HandleStartedStatus(b: Bench, c: int, t: string)
    requires b.system.host == AwaitStarted(c, t) && b.system.toHost != [] && b.system.toDevice == []
    requires CalmStarting(b, c, t) && IsStatusLed(t)
    ensures TakeStep(b, HandleMessage).system.host == AwaitStopped(c, t)
    ensures CalmStopping(TakeStep(b, HandleMessage), c, t)
  {
    var rest := b.system.(toHost := b.system.toHost[1..]);
    StopSent(rest, c, t);
    assert TakeStep(b, HandleMessage) == b.(system := Decide(rest, c, t, StopTest));
  }

  lemma HandleStarted(b: Bench)
    requires CalmInv(b) && b.system.host.AwaitStarted? && b.system.toHost != []
    ensures CalmInv(TakeStep(b, HandleMessage))
  {
    var s, c, t := b.system, b.system.host.commandId, b.system.host.testType;
    if IsStatusLed(t) {
      HandleStartedStatus(b, c, t);
    } else {
      assert TakeStep(b, HandleMessage) == b.(system := s.(toHost := s.toHost[1..], host := Running(c, t)));
    }
  }

  lemma HandleRgb(b: Bench)
    requires CalmInv(b) && b.system.host.Running? && b.system.host.testType == "rgb_led" && b.system.toHost != []
    ensures CalmInv(TakeStep(b, HandleMessage))
  {
    var s, c, t := b.system, b.system.host.commandId, b.system.host.testType;
    assert |s.toHost| == 1 && s.toHost[1..] == [];
    if s.toHost[0].Event? {
      StopSent(s.(toHost := []), c, t);
    }
  }

  lemma HandleCard(b: Bench)
    requires CalmInv(b) && b.system.host.Running? && b.system.host.testType == "sd_card" && b.system.toHost != []
    ensures CalmInv(TakeStep(b, HandleMessage))
  {
    var s, c, t := b.system, b.system.host.commandId, b.system.host.testType;
    if s.toHost[0].Event? {
      UnderwayRest(s.toHost, s.device.active, c, t);
      assert TakeStep(b, HandleMessage).system == s.(toHost := s.toHost[1..]);
    } else {
      assert s.device.active.None? && |s.toHost| == 1;
    }
  }

  lemma HandleKeepsCalm(b: Bench)
    requires CalmInv(b)
    ensures CalmInv(TakeStep(b, HandleMessage))
  {
    if b.system.toHost != [] {
      match b.system.host
      case AwaitStarted(c, t) => HandleStarted(b);
      case Running(c, t) => if t == "rgb_led" { HandleRgb(b); } else { HandleCard(b); }
      case _ =>
    }
  }

  lemma AnswerKeepsCalm(b: Bench, works: bool, leftover: uint32)
    requires CalmInv(b)
    ensures CalmInv(TakeStep(b, AnswerRequest(works, leftover)))
  {
  }

  lemma ProcessQueues(b: Bench, elapsed: nat, works: bool, card: S.Outcome, messages: seq<S.Response>, c: nat,
                      t: string)
    returns (added: seq<S.Response>)
    requires Queued(b, messages, c, t) && b.system.device.active.Some? && Calm(t) && c > 0
    ensures var u := TakeStep(b, Process(elapsed, works, card));
            && u.system.toHost == b.system.toHost + added && Queued(u, messages + added, c, t)
  {
    var outcome := ComponentProcess(b.component, T.Call(b.now + elapsed, works), card).1;
    if outcome.Busy? {
      added := [];
      assert b.system.toHost + [] == b.system.toHost && messages + [] == messages;
    } else {
      added := [S.Advance(b.system.device, outcome).1.value];
      if t == "sd_card" {
        TickUnderway(messages, b.system.device, outcome, c, t);
      }
    }
  }

  lemma ProcessKeepsCalm(b: Bench, elapsed: nat, works: bool, card: S.Outcome)
    requires CalmInv(b)
    ensures CalmInv(TakeStep(b, Process(elapsed, works, card)))
  {
    var s := b.system;
    if s.device.active.Some? {
      match s.host
      case AwaitStarted(c, t) =>
        var added := ProcessQueues(b, elapsed, works, card, s.toHost[1..], c, t);
        assert (s.toHost + added)[1..] == s.toHost[1..] + added;
      case Running(c, t) =>
        var added := ProcessQueues(b, elapsed, works, card, s.toHost, c, t);
      case _ =>
    }
  }

  lemma StepKeepsCalm(b: Bench, step: BenchStep)
    requires CalmInv(b) && Understood(step) && (step.BeginTest? ==> !LiveType(step.testType))
    requires step.ReadTimeout? ==> !AwaitsAcknowledgement(b.system.host)
    ensures CalmInv(TakeStep(b, step))
  {
    match step
    case BeginTest(c, t, parameters) => BeginKeepsCalm(b, step);
    case HandleMessage => HandleKeepsCalm(b);
    case ReadTimeout =>
    case OperatorAnswers =>
    case AnswerRequest(works, leftover) => AnswerKeepsCalm(b, works, leftover);
    case Process(elapsed, works, card) => ProcessKeepsCalm(b, elapsed, works, card);
  }

  lemma InTimeBefore(steps: seq<BenchStep>)
    requires AnsweredInTime(steps) && steps != []
    ensures AnsweredInTime(steps[..|steps| - 1])
  {
    forall i | 0 <= i < |steps| - 1 && steps[i].ReadTimeout?
      ensures !AwaitsAcknowledgement(BenchAfter(steps[..|steps| - 1][..i]).system.host)
    {
      assert steps[..|steps| - 1][..i] == steps[..i];
    }
  }

  lemma {:induction false} CalmAlways(steps: seq<BenchStep>)
    requires AllUnderstood(steps) && NoneLive(steps) && AnsweredInTime(steps)
    ensures CalmInv(BenchAfter(steps))
  {
    if steps != [] {
      InTimeBefore(steps);
      CalmAlways(steps[..|steps| - 1]);
      StepKeepsCalm(BenchAfter(steps[..|steps| - 1]), steps[|steps| - 1]);
    }
  }

  /** Whatever tests of the other four types are run one after the other, and however many reads
      time out while they run, the host never raises, and what it reads after a stop request is
      always the matching TEST_STOPPED. */
  lemma StopAlwaysAcknowledged(steps: seq<BenchStep>)
    requires AllUnderstood(steps) && NoneLive(steps) && AnsweredInTime(steps)
    ensures var s := BenchAfter(steps).system;
            && s.host != Raised
            && (s.host.AwaitStopped? && s.toHost != [] ==> Acknowledges(s.toHost[0], s.host.commandId, s.host.testType))
  {
    CalmAlways(steps);
  }

  lemma RaisedStays(b: Bench, step: BenchStep)
    requires b.system.host == Raised
    ensures TakeStep(b, step).system.host == Raised
  {
  }

  lemma LateReadRaises(b: Bench)
    requires AwaitsAcknowledgement(b.system.host)
    ensures TakeStep(b, ReadTimeout).system.host == Raised
  {
  }

  lemma {:induction false} LateRaises(steps: seq<BenchStep>, i: nat)
    requires i < |steps| && steps[i].ReadTimeout? && AwaitsAcknowledgement(BenchAfter(steps[..i]).system.host)
    ensures BenchAfter(steps).system.host == Raised
  {
    var before := steps[..|steps| - 1];
    if i == |before| {
      LateReadRaises(BenchAfter(before));
    } else {
      assert before[..i] == steps[..i];
      LateRaises(before, i);
      RaisedStays(BenchAfter(before), steps[|before|]);
    }
  }

  /** So the host raises exactly when a read that awaits an acknowledgement times out. */
  lemma RaisesIffLate(steps: seq<BenchStep>)
    requires AllUnderstood(steps) && NoneLive(steps)
    ensures BenchAfter(steps).system.host == Raised <==> !AnsweredInTime(steps)
  {
    if AnsweredInTime(steps) {
      CalmAlways(steps);
    } else {
      var i :| 0 <= i < |steps| && steps[i].ReadTimeout? && AwaitsAcknowledgement(BenchAfter(steps[..i]).system.host);
      LateRaises(steps, i);
    }
  }

  // ---------------------------------------------------------------- every test can be brought to its end

  /** How far the exchange is from its end, by what the host waits for. */
  function Stage(host: Host, requested: bool): nat {
    match host
    case AwaitStarted(_, _) => if requested then 5 else 4
    case Running(_, _) => 3
    case AwaitStopped(_, _) => if requested then 2 else 1
    case _ => 0
  }

  function Pending(b: Bench): nat {
    |b.system.toHost| + (if b.system.device.active.None? then 0 else if b.component == Rgb(ColourReady) then 4 else 2)
  }

  predicate Nearer(b: Bench, next: Bench) {
    var m, n := Stage(b.system.host, b.system.toDevice != []), Stage(next.system.host, next.system.toDevice != []);
    n < m || (n == m == 3 && Pending(next) < Pending(b))
  }

  /** The step that brings the exchange nearer to its end: the device answers, the host handles
      what it has been sent, or else the component is called. */
  function NextStep(b: Bench): BenchStep {
    if b.system.toDevice != [] then AnswerRequest(true, 0)
    else if b.system.toHost != [] then HandleMessage
    else Process(0, true, S.Passes)
  }

  lemma AnswerNears(b: Bench)
    requires CalmInv(b) && b.system.host != Idle && b.system.toDevice != []
    ensures Nearer(b, TakeStep(b, NextStep(b)))
  {
  }

  lemma HandleStartedNears(b: Bench)
    requires CalmInv(b) && b.system.host.AwaitStarted? && b.system.toDevice == [] && b.system.toHost != []
    ensures Nearer(b, TakeStep(b, HandleMessage))
  {
    var s, c, t := b.system, b.system.host.commandId, b.system.host.testType;
    if IsStatusLed(t) {
      HandleStartedStatus(b, c, t);
    } else {
      assert TakeStep(b, HandleMessage).system.host == Running(c, t);
    }
  }

  lemma HandleRunningNears(b: Bench)
    requires CalmInv(b) && b.system.host.Running? && b.system.toHost != []
    ensures Nearer(b, TakeStep(b, HandleMessage))
  {
    var s, c, t := b.system, b.system.host.commandId, b.system.host.testType;
    var next := TakeStep(b, HandleMessage);
    if t == "rgb_led" && s.toHost[0].Event? {
      StopSent(s.(toHost := s.toHost[1..]), c, t);
      assert next.system.host == AwaitStopped(c, t);
    } else if s.toHost[0].Event? {
      assert next.system == s.(toHost := s.toHost[1..]) && next.component == b.component;
    } else {
      assert next.system.host == Idle;
    }
  }

  lemma HandleNears(b: Bench)
    requires CalmInv(b) && b.system.host != Idle && b.system.toDevice == [] && b.system.toHost != []
    ensures Nearer(b, TakeStep(b, NextStep(b)))
  {
    match b.system.host
    case AwaitStarted(_, _) => HandleStartedNears(b);
    case Running(_, _) => HandleRunningNears(b);
    case AwaitStopped(_, _) =>
  }

  lemma ProcessNears(b: Bench)
    requires CalmInv(b) && b.system.host != Idle && b.system.toDevice == [] && b.system.toHost == []
    ensures Nearer(b, TakeStep(b, NextStep(b)))
  {
  }

  /** From every state a run of these types reaches there is a way for the exchange to end
      normally, without a timeout and without the operator. */
  lemma {:induction false} CanFinish(b: Bench) returns (more: seq<BenchStep>)
    requires CalmInv(b)
    ensures BenchRun(b, more).system.host == Idle
    ensures forall i :: 0 <= i < |more| ==> more[i].AnswerRequest? || more[i].HandleMessage? || more[i].Process?
    decreases Stage(b.system.host, b.system.toDevice != []), Pending(b)
  {
    more := [];
    if b.system.host != Idle {
      if b.system.toDevice != [] {
        AnswerNears(b);
      } else if b.system.toHost != [] {
        HandleNears(b);
      } else {
        ProcessNears(b);
      }
      StepKeepsCalm(b, NextStep(b));
      var rest := CanFinish(TakeStep(b, NextStep(b)));
      BenchOne(b, NextStep(b));
      BenchRunAppend(b, [NextStep(b)], rest);
      more := [NextStep(b)] + rest;
    }
  }

  lemma CanAlwaysFinish(steps: seq<BenchStep>) returns (more: seq<BenchStep>)
    requires AllUnderstood(steps) && NoneLive(steps) && AnsweredInTime(steps)
    ensures BenchAfter(steps + more).system.host == Idle
    ensures forall i :: 0 <= i < |more| ==> more[i].AnswerRequest? || more[i].HandleMessage? || more[i].Process?
  {
    CalmAlways(steps);
    more := CanFinish(BenchAfter(steps));
    BenchRunAppend(FRESH, steps, more);
  }

  // ---------------------------------------------------------------- the types that are not

  /** Everything about a bench but the history in its session. */
  datatype Stance = Stance(host: Host, active: Option<S.Test>, toDevice: seq<Option<D.Request>>,
                           toHost: seq<S.Response>, component: Component, operator: Operator, now: nat)

  function StanceOf(b: Bench): Stance {
    Stance(b.system.host, b.system.device.active, b.system.toDevice, b.system.toHost, b.component, b.operator, b.now)
  }

  function StopRequest(): D.Request {
    D.Request(D.StopComponentTest, 1002, "", "", None)
  }

  lemma LiveTypeKnown(t: string)
    requires LiveType(t)
    ensures t in S.COMPONENT_TYPES && 0 < |t| <= 31 && E.IsHostTestType(t) && t != "rgb_led"
    ensures t != "status_led_red" && t != "status_led_green" && t != "sd_card"
  {
    assert S.COMPONENT_TYPES[3] == "imu" && S.COMPONENT_TYPES[4] == "barometer";
  }

  lemma LiveBegins(b: Bench, t: string)
    requires StanceOf(b) == Stance(Idle, None, [], [], StatusLed, FRESH_OPERATOR, 0) && LiveType(t)
    ensures var request := D.Request(D.RunComponentTest, 2, "", t, None);
            StanceOf(TakeStep(b, BeginTest(2, t, None))) ==
            Stance(AwaitStarted(2, t), None, [Some(request)], [], StatusLed, FRESH_OPERATOR, 0)
  {
    LiveTypeKnown(t);
    E.RunRoundTrip(2, t, None);
  }

  lemma LiveStarts(b: Bench, t: string)
    requires LiveType(t)
    requires var request := D.Request(D.RunComponentTest, 2, "", t, None);
             StanceOf(b) == Stance(AwaitStarted(2, t), None, [Some(request)], [], StatusLed, FRESH_OPERATOR, 0)
    ensures StanceOf(TakeStep(b, AnswerRequest(true, 0))) ==
            Stance(AwaitStarted(2, t), Some(S.Test(t, 2)), [], [S.Started(2, t)], Started(t, true, 0), FRESH_OPERATOR,
                   0)
  {
    LiveTypeKnown(t);
  }

  lemma LiveStartRead(b: Bench, t: string, component: Component)
    requires LiveType(t)
    requires StanceOf(b) ==
             Stance(AwaitStarted(2, t), Some(S.Test(t, 2)), [], [S.Started(2, t)], component, FRESH_OPERATOR, 0)
    ensures StanceOf(TakeStep(b, HandleMessage)) ==
            Stance(Running(2, t), Some(S.Test(t, 2)), [], [], component, FRESH_OPERATOR, 0)
  {
    LiveTypeKnown(t);
  }

  /** The component emits an event. */
  lemma LiveEmits(b: Bench, host: Host, t: string, toDevice: seq<Option<D.Request>>, messages: seq<S.Response>,
                  component: Component, operator: Operator, now: nat, elapsed: nat, next: Component, event: string,
                  later: nat)
    requires StanceOf(b) == Stance(host, Some(S.Test(t, 2)), toDevice, messages, component, operator, now)
    requires later == now + elapsed
    requires ComponentProcess(component, T.Call(later, true), S.Busy) == (next, S.Emits(event))
    ensures StanceOf(TakeStep(b, Process(elapsed, true, S.Busy))) ==
            Stance(host, Some(S.Test(t, 2)), toDevice, messages + [S.Event(2, t, event)], next, operator, later)
  {
  }

  function ReadyEvent(t: string): string {
    if t == "imu" then "imu_ready" else "barometer_ready"
  }

  /** The handler reads an event before the operator has answered. */
  lemma LiveEventRead(b: Bench, t: string, event: string, rest: seq<S.Response>, component: Component,
                      operator: Operator, now: nat)
    requires LiveType(t) && operator.given == 0
    requires StanceOf(b) ==
             Stance(Running(2, t), Some(S.Test(t, 2)), [], [S.Event(2, t, event)] + rest, component, operator, now)
    ensures StanceOf(TakeStep(b, HandleMessage)) ==
            Stance(Running(2, t), Some(S.Test(t, 2)), [], rest, component,
                   LiveEvent(operator, event == ReadyEvent(t)).0, now)
  {
    LiveTypeKnown(t);
    assert ([S.Event(2, t, event)] + rest)[1..] == rest;
  }

  /** The handler reads an event after the operator has answered. */
  lemma LiveStopSent(b: Bench, t: string, event: string, component: Component, now: nat)
    requires LiveType(t)
    requires StanceOf(b) ==
             Stance(Running(2, t), Some(S.Test(t, 2)), [], [S.Event(2, t, event)], component, Operator(true, 0, 1), now)
    ensures StanceOf(TakeStep(b, HandleMessage)) ==
            Stance(AwaitStopped(2, t), Some(S.Test(t, 2)), [Some(StopRequest())], [], component, Operator(true, 0, 0),
                   now)
  {
    LiveTypeKnown(t);
    E.StopRoundTrip(1002);
    assert [S.Event(2, t, event)][1..] == [];
  }

  function Live(t: string, sensor: T.Sensor): Component {
    if t == "imu" then Imu(sensor) else Barometer(sensor)
  }

  function Interval(t: string): uint32 {
    if t == "imu" then T.IMU_INTERVAL_MS else T.BAROMETER_INTERVAL_MS
  }

  function SampleEvent(t: string): string {
    if t == "imu" then "imu_sample" else "barometer_sample"
  }

  function Sampled(sensor: T.Sensor, now: nat, interval: uint32): T.Sensor {
    sensor.(nextSampleAt := K.Later(K.Tick(now), interval), samples := sensor.samples + [now])
  }

  /** A sensor whose target is the current tick is read. */
  lemma LiveSamples(t: string, sensor: T.Sensor, now: nat)
    requires LiveType(t) && sensor.state == T.Sampling && sensor.nextSampleAt == K.Tick(now)
    ensures ComponentProcess(Live(t, sensor), T.Call(now, true), S.Busy)
            == (Live(t, Sampled(sensor, now, Interval(t))), S.Emits(SampleEvent(t)))
    ensures Sampled(sensor, now, Interval(t)).nextSampleAt == K.Tick(now + Interval(t))
  {
    K.LaterIsTick(now, Interval(t));
  }

  /** With the ready event read and two samples taken around the operator's answer. */
  function ChattyEnd(t: string): seq<BenchStep> {
    [HandleMessage] + [Process(0, true, S.Busy)] + [OperatorAnswers] + [HandleMessage]
    + [Process(Interval(t), true, S.Busy)] + [AnswerRequest(true, 0)] + [HandleMessage]
  }

  predicate Ready(b: Bench, t: string, sensor: T.Sensor, now: nat) {
    && StanceOf(b) == Stance(Running(2, t), Some(S.Test(t, 2)), [], [S.Event(2, t, ReadyEvent(t))], Live(t, sensor),
                             FRESH_OPERATOR, now)
    && sensor.state == T.Sampling && sensor.nextSampleAt == K.Tick(now)
  }

  lemma BenchMore(b: Bench, steps: seq<BenchStep>, step: BenchStep)
    ensures BenchRun(b, steps + [step]) == TakeStep(BenchRun(b, steps), step)
  {
  }

  lemma BenchOne(b: Bench, step: BenchStep)
    ensures BenchRun(b, [step]) == TakeStep(b, step)
  {
    assert [step][..0] == [];
  }

  /** The stop request is written while the sensor keeps sampling. */
  lemma ChattyStop(b: Bench, t: string, sensor: T.Sensor, now: nat)
    requires LiveType(t) && Ready(b, t, sensor, now)
    ensures var run := [HandleMessage] + [Process(0, true, S.Busy)] + [OperatorAnswers] + [HandleMessage];
            StanceOf(BenchRun(b, run)) ==
            Stance(AwaitStopped(2, t), Some(S.Test(t, 2)), [Some(StopRequest())], [],
                   Live(t, Sampled(sensor, now, Interval(t))), Operator(true, 0, 0), now)
  {
    var run := [HandleMessage];
    BenchOne(b, HandleMessage);
    assert [S.Event(2, t, ReadyEvent(t))] + [] == [S.Event(2, t, ReadyEvent(t))];
    LiveEventRead(b, t, ReadyEvent(t), [], Live(t, sensor), FRESH_OPERATOR, now);
    LiveSamples(t, sensor, now);
    BenchMore(b, run, Process(0, true, S.Busy));
    LiveEmits(BenchRun(b, run), Running(2, t), t, [], [], Live(t, sensor), Operator(true, 1, 0), now, 0,
              Live(t, Sampled(sensor, now, Interval(t))), SampleEvent(t), now);
    run := run + [Process(0, true, S.Busy)];
    BenchMore(b, run, OperatorAnswers);
    run := run + [OperatorAnswers];
    BenchMore(b, run, HandleMessage);
    assert [] + [S.Event(2, t, SampleEvent(t))] == [S.Event(2, t, SampleEvent(t))];
    LiveStopSent(BenchRun(b, run), t, SampleEvent(t), Live(t, Sampled(sensor, now, Interval(t))), now);
  }

  /** The next sample is read in place of the acknowledgement. */
  lemma SampleReadInstead(b: Bench, t: string, sensor: T.Sensor, now: nat)
    requires LiveType(t) && sensor.state == T.Sampling && sensor.nextSampleAt == K.Tick(now + Interval(t))
    requires StanceOf(b) ==
             Stance(AwaitStopped(2, t), Some(S.Test(t, 2)), [Some(StopRequest())], [], Live(t, sensor),
                    Operator(true, 0, 0), now)
    ensures var run := [Process(Interval(t), true, S.Busy)] + [AnswerRequest(true, 0)] + [HandleMessage];
            BenchRun(b, run).system.host == Raised
  {
    var run := [Process(Interval(t), true, S.Busy)];
    BenchOne(b, Process(Interval(t), true, S.Busy));
    LiveSamples(t, sensor, now + Interval(t));
    LiveEmits(b, AwaitStopped(2, t), t, [Some(StopRequest())], [], Live(t, sensor), Operator(true, 0, 0), now,
              Interval(t), Live(t, Sampled(sensor, now + Interval(t), Interval(t))), SampleEvent(t), now + Interval(t));
    BenchMore(b, run, AnswerRequest(true, 0));
    run := run + [AnswerRequest(true, 0)];
    assert BenchRun(b, run).system.toHost[0] == S.Event(2, t, SampleEvent(t));
    BenchMore(b, run, HandleMessage);
  }

  lemma {:induction false} BenchRunAppend(b: Bench, a: seq<BenchStep>, steps: seq<BenchStep>)
    ensures BenchRun(b, a + steps) == BenchRun(BenchRun(b, a), steps)
  {
    if steps == [] {
      assert a + steps == a;
    } else {
      BenchRunAppend(b, a, steps[..|steps| - 1]);
      assert (a + steps)[..|a + steps| - 1] == a + steps[..|steps| - 1];
    }
  }

  lemma ChattyEndRaises(b: Bench, t: string, sensor: T.Sensor, now: nat)
    requires LiveType(t) && Ready(b, t, sensor, now)
    ensures BenchRun(b, ChattyEnd(t)).system.host == Raised
  {
    var first := [HandleMessage] + [Process(0, true, S.Busy)] + [OperatorAnswers] + [HandleMessage];
    var second := [Process(Interval(t), true, S.Busy)] + [AnswerRequest(true, 0)] + [HandleMessage];
    ChattyStop(b, t, sensor, now);
    LiveSamples(t, sensor, now);
    SampleReadInstead(BenchRun(b, first), t, Sampled(sensor, now, Interval(t)), now);
    BenchRunAppend(b, first, second);
    assert first + second == ChattyEnd(t);
  }

  function Begun(t: string): seq<BenchStep> {
    [BeginTest(2, t, None)] + [AnswerRequest(true, 0)] + [HandleMessage]
  }

  function Opening(t: string): seq<BenchStep> {
    Begun(t) + [Process(0, true, S.Busy)]
  }

  function BarometerOpening(): seq<BenchStep> {
    Opening("barometer") + [HandleMessage] + [Process(2000, true, S.Busy)]
  }

  function ChattyRun(t: string): seq<BenchStep> {
    if t == "imu" then Opening(t) + ChattyEnd(t)
    else BarometerOpening() + ChattyEnd(t)
  }

  lemma AfterBegun(t: string)
    requires LiveType(t)
    ensures StanceOf(BenchAfter(Begun(t))) ==
            Stance(Running(2, t), Some(S.Test(t, 2)), [], [], Started(t, true, 0), FRESH_OPERATOR, 0)
  {
    var run := [BeginTest(2, t, None)];
    BenchOne(FRESH, BeginTest(2, t, None));
    LiveBegins(FRESH, t);
    BenchMore(FRESH, run, AnswerRequest(true, 0));
    LiveStarts(BenchAfter(run), t);
    run := run + [AnswerRequest(true, 0)];
    BenchMore(FRESH, run, HandleMessage);
    LiveStartRead(BenchAfter(run), t, Started(t, true, 0));
  }

  /** The first event of the test is queued. */
  lemma AfterOpening(t: string, next: Component, event: string)
    requires LiveType(t)
    requires ComponentProcess(Started(t, true, 0), T.Call(0, true), S.Busy) == (next, S.Emits(event))
    ensures StanceOf(BenchAfter(Opening(t))) ==
            Stance(Running(2, t), Some(S.Test(t, 2)), [], [S.Event(2, t, event)], next, FRESH_OPERATOR, 0)
  {
    var run := Begun(t);
    AfterBegun(t);
    BenchMore(FRESH, run, Process(0, true, S.Busy));
    LiveEmits(BenchAfter(run), Running(2, t), t, [], [], Started(t, true, 0), FRESH_OPERATOR, 0, 0, next, event, 0);
    assert [] + [S.Event(2, t, event)] == [S.Event(2, t, event)];
  }

  lemma ImuRaises()
    ensures BenchAfter(ChattyRun("imu")).system.host == Raised
  {
    var sensor := T.Sensor(T.Sampling, 0, 0, 0, []);
    AfterOpening("imu", Imu(sensor), "imu_ready");
    ChattyEndRaises(BenchAfter(Opening("imu")), "imu", sensor, 0);
    BenchRunAppend(FRESH, Opening("imu"), ChattyEnd("imu"));
  }

  /** The barometer announces that it settles and, two seconds later, that it is ready. */
  lemma BarometerReady()
    ensures Ready(BenchAfter(BarometerOpening()), "barometer", T.Sensor(T.Sampling, 2000, 0, 2000, []), 2000)
  {
    var t, run := "barometer", Opening("barometer");
    var settling := T.Sensor(T.Settling, 2000, 0, 0, []);
    BarometerSettles();
    BenchMore(FRESH, run, HandleMessage);
    assert [S.Event(2, t, "barometer_stabilizing")] + [] == [S.Event(2, t, "barometer_stabilizing")];
    LiveEventRead(BenchAfter(run), t, "barometer_stabilizing", [], Barometer(settling), FRESH_OPERATOR, 0);
    run := run + [HandleMessage];
    BenchMore(FRESH, run, Process(2000, true, S.Busy));
    LiveEmits(BenchAfter(run), Running(2, t), t, [], [], Barometer(settling), FRESH_OPERATOR, 0, 2000,
              Barometer(T.Sensor(T.Sampling, 2000, 0, 2000, [])), "barometer_ready", 2000);
    assert [] + [S.Event(2, t, "barometer_ready")] == [S.Event(2, t, "barometer_ready")];
  }

  lemma BarometerSettles()
    ensures StanceOf(BenchAfter(Opening("barometer"))) ==
            Stance(Running(2, "barometer"), Some(S.Test("barometer", 2)), [],
                   [S.Event(2, "barometer", "barometer_stabilizing")], Barometer(T.Sensor(T.Settling, 2000, 0, 0, [])),
                   FRESH_OPERATOR, 0)
    ensures "barometer_stabilizing" != ReadyEvent("barometer")
  {
    assert "barometer" != "imu";
    AfterOpening("barometer", Barometer(T.Sensor(T.Settling, 2000, 0, 0, [])), "barometer_stabilizing");
  }

  lemma BarometerRaises()
    ensures BenchAfter(BarometerOpening() + ChattyEnd("barometer")).system.host == Raised
  {
    BarometerReady();
    ChattyEndRaises(BenchAfter(BarometerOpening()), "barometer", T.Sensor(T.Sampling, 2000, 0, 2000, []), 2000);
    BenchRunAppend(FRESH, BarometerOpening(), ChattyEnd("barometer"));
  }

  /** The sampling components do not stay quiet: a sample taken as the stop request travels is
      read in place of the acknowledgement. */
  lemma ChattyRunRaises(t: string)
    requires LiveType(t)
    ensures BenchAfter(ChattyRun(t)).system.host == Raised
  {
    if t == "imu" {
      ImuRaises();
    } else {
      BarometerRaises();
    }
  }

  /** In every run of tests of this type alone, acknowledged in time, the host never raises. */
  ghost predicate AlwaysReturns(t: string) {
    forall steps :: AllUnderstood(steps) && OnlyType(steps, t) && AnsweredInTime(steps) ==>
      BenchAfter(steps).system.host != Raised
  }

  predicate OnlyType(steps: seq<BenchStep>, t: string) {
    forall i :: 0 <= i < |steps| && steps[i].BeginTest? ==> steps[i].testType == t
  }

  predicate NoTimeouts(steps: seq<BenchStep>) {
    forall i :: 0 <= i < |steps| ==> !steps[i].ReadTimeout?
  }

  lemma UnderstoodMore(steps: seq<BenchStep>, more: seq<BenchStep>, t: string)
    requires AllUnderstood(steps) && OnlyType(steps, t) && NoTimeouts(steps)
    requires forall i :: 0 <= i < |more| ==> !more[i].BeginTest? && !more[i].ReadTimeout?
    ensures AllUnderstood(steps + more) && OnlyType(steps + more, t) && NoTimeouts(steps + more)
  {
  }

  lemma ChattyRunUnderstood(t: string)
    requires LiveType(t)
    ensures AllUnderstood(ChattyRun(t)) && OnlyType(ChattyRun(t), t) && NoTimeouts(ChattyRun(t))
  {
    LiveTypeKnown(t);
    var run := [BeginTest(2, t, None)];
    UnderstoodMore(run, [AnswerRequest(true, 0)], t);
    UnderstoodMore(run + [AnswerRequest(true, 0)], [HandleMessage], t);
    UnderstoodMore(Begun(t), [Process(0, true, S.Busy)], t);
    if t == "imu" {
      UnderstoodMore(Opening(t), ChattyEnd(t), t);
    } else {
      UnderstoodMore(Opening(t), [HandleMessage], t);
      UnderstoodMore(Opening(t) + [HandleMessage], [Process(2000, true, S.Busy)], t);
      UnderstoodMore(BarometerOpening(), ChattyEnd(t), t);
    }
  }

  /** Of the registered types exactly the two sampling ones can lose their acknowledgement. */
  lemma AlwaysReturnsIff(t: string)
    requires t in S.COMPONENT_TYPES
    ensures AlwaysReturns(t) <==> t != "imu" && t != "barometer"
  {
    if LiveType(t) {
      ChattyRunRaises(t);
      ChattyRunUnderstood(t);
      assert AnsweredInTime(ChattyRun(t));
    } else {
      forall steps | AllUnderstood(steps) && OnlyType(steps, t) && AnsweredInTime(steps)
        ensures BenchAfter(steps).system.host != Raised
      {
        StopAlwaysAcknowledged(steps);
      }
    }
  }
}
