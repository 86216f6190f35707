/** The session told from outside: what it answers and reports, by what it has said before. */
module Conversation {
  import opened Options
  import D = RequestDocuments
  import opened SessionModel

  /** The test in progress as a reader of the responses knows it. */
  function OpenTest(said: seq<Response>): Option<Test> {
    if said == [] then None
    else
      match said[|said| - 1]
      case Started(id, t) => Some(Test(t, id))
      case Event(id, t, _) => Some(Test(t, id))
      case Completed(_, _, _) => None
      case Stopped(_, _) => None
      case _ => OpenTest(said[..|said| - 1])
  }

  /** The one response a request may get after these. */
  predicate RightReply(said: seq<Response>, request: Option<D.Request>, reply: Response) {
    match request
    case None => reply == Error(0, "invalid_request")
    case Some(r) =>
      match r.kind
      case StartTest => reply == Metadata(r.commandId)
      case RunComponentTest =>
        reply == if OpenTest(said).Some? then Error(r.commandId, "test_already_active")
                 else if r.testType !in COMPONENT_TYPES then Error(r.commandId, "unsupported_test_type")
                 else Started(r.commandId, r.testType)
      case StopComponentTest =>
        reply == if OpenTest(said).None? then Error(r.commandId, "no_active_test")
                 else Stopped(r.commandId, OpenTest(said).value.testType)
      case _ => false
  }

  /** What the test in progress says of its own accord when its process function returns. */
  function Report(open: Option<Test>, outcome: Outcome): seq<Response> {
    if open.None? then []
    else
      match outcome
      case Busy => []
      case Emits(event) => [Event(open.value.commandId, open.value.testType, event)]
      case Passes => [Completed(open.value.commandId, open.value.testType, true)]
      case Fails => [Completed(open.value.commandId, open.value.testType, false)]
  }

  function Reports(steps: seq<Step>): seq<Response> {
    if steps == [] then []
    else
      var before := steps[..|steps| - 1];
      Reports(before) +
      match steps[|steps| - 1]
      case Request(_) => []
      case Tick(outcome) => Report(OpenTest(After(before).said), outcome)
  }

  function Unasked(said: seq<Response>): seq<Response> {
    if said == [] then []
    else
      var last := said[|said| - 1];
      Unasked(said[..|said| - 1]) + (if last.Event? || last.Completed? then [last] else [])
  }

  /** The start call a RUN asks for, if it is accepted. */
  function StartOf(open: Option<Test>, step: Step): seq<ComponentCall> {
    match step
    case Request(Some(r)) =>
      if r.kind == D.RunComponentTest && open.None? && r.testType in COMPONENT_TYPES
      then [StartCall(r.testType, r.colour)] else []
    case _ => []
  }

  function AcceptedRuns(steps: seq<Step>): seq<ComponentCall> {
    if steps == [] then []
    else
      var before := steps[..|steps| - 1];
      AcceptedRuns(before) + StartOf(OpenTest(After(before).said), steps[|steps| - 1])
  }

  function Starts(calls: seq<ComponentCall>): seq<ComponentCall> {
    if calls == [] then []
    else
      var last := calls[|calls| - 1];
      Starts(calls[..|calls| - 1]) + (if last.StartCall? then [last] else [])
  }

  /** One step, given that the responses before it name the active test. */
  lemma StepIsTold(s: Session, step: Step)
    requires s.active == OpenTest(s.said) && (step.Request? ==> FromParser(step.request))
    ensures Take(s, step).active == OpenTest(Take(s, step).said)
    ensures step.Request? ==> RightReply(s.said, step.request, Answer(s, step.request).1)
  {
    if step.Request? && step.request.Some? {
      ParserFacts(step.request.value);
    }
  }

  /** In every run the responses name the test in progress, whatever else the session holds. */
  lemma {:induction false} ActiveIsOpenTest(steps: seq<Step>)
    requires Parseable(steps)
    ensures After(steps).active == OpenTest(After(steps).said)
  {
    if steps != [] {
      ActiveIsOpenTest(steps[..|steps| - 1]);
      StepIsTold(After(steps[..|steps| - 1]), steps[|steps| - 1]);
    }
  }

  /** So each answer, its identifier and error code included, follows from the request and from
      what has been said. */
  lemma RepliesAreRight(steps: seq<Step>, request: Option<D.Request>)
    requires Parseable(steps) && FromParser(request)
    ensures RightReply(After(steps).said, request, Answer(After(steps), request).1)
  {
    ActiveIsOpenTest(steps);
    StepIsTold(After(steps), Request(request));
  }

  lemma UnaskedSnoc(said: seq<Response>, r: Response)
    ensures Unasked(said + [r]) == Unasked(said) + (if r.Event? || r.Completed? then [r] else [])
  {
    assert (said + [r])[..|said|] == said;
  }

  lemma StepReports(s: Session, step: Step)
    ensures Unasked(Take(s, step).said) ==
            Unasked(s.said) + (match step case Request(_) => [] case Tick(outcome) => Report(s.active, outcome))
  {
    assert Unasked(s.said) + [] == Unasked(s.said);
    match step
    case Request(request) => UnaskedSnoc(s.said, Answer(s, request).1);
    case Tick(outcome) =>
      if Advance(s, outcome).1.Some? {
        UnaskedSnoc(s.said, Advance(s, outcome).1.value);
      }
  }

  /** What is said unasked is, in order, what the process functions of the tests in progress
      returned: an event, or the completion with its verdict, and nothing while busy. */
  lemma {:induction false} ReportsAreOutcomes(steps: seq<Step>)
    requires Parseable(steps)
    ensures Unasked(After(steps).said) == Reports(steps)
  {
    if steps != [] {
      var before := steps[..|steps| - 1];
      ReportsAreOutcomes(before);
      ActiveIsOpenTest(before);
      StepReports(After(before), steps[|steps| - 1]);
    }
  }

  lemma StartsSnoc(calls: seq<ComponentCall>, call: ComponentCall)
    ensures Starts(calls + [call]) == Starts(calls) + (if call.StartCall? then [call] else [])
  {
    assert (calls + [call])[..|calls|] == calls;
  }

  /** A step starts a component, stops the active one, or calls none. */
  lemma StepCalls(s: Session, step: Step)
    requires step.Request? ==> FromParser(step.request)
    ensures var calls, start := Take(s, step).calls, StartOf(s.active, step);
            calls == s.calls + start ||
            (start == [] && s.active.Some? && calls == s.calls + [StopCall(s.active.value.testType)])
  {
    assert s.calls + [] == s.calls;
    if step.Request? && step.request.Some? {
      ParserFacts(step.request.value);
    }
  }

  lemma StepStarts(s: Session, step: Step)
    requires step.Request? ==> FromParser(step.request)
    ensures Starts(Take(s, step).calls) == Starts(s.calls) + StartOf(s.active, step)
  {
    StepCalls(s, step);
    var start := StartOf(s.active, step);
    assert Starts(s.calls) + [] == Starts(s.calls) && s.calls + [] == s.calls;
    if start != [] {
      StartsSnoc(s.calls, start[0]);
    } else if s.active.Some? {
      StartsSnoc(s.calls, StopCall(s.active.value.testType));
    }
  }

  /** Components are started by accepted RUNs, in order, each with the colour of its own. */
  lemma {:induction false} StartsAreAcceptedRuns(steps: seq<Step>)
    requires Parseable(steps)
    ensures Starts(After(steps).calls) == AcceptedRuns(steps)
  {
    if steps != [] {
      var before := steps[..|steps| - 1];
      StartsAreAcceptedRuns(before);
      ActiveIsOpenTest(before);
      StepStarts(After(before), steps[|steps| - 1]);
    }
  }
}
