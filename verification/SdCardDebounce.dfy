/** Card-detect debouncing of the SD-card test in unbounded true time: what must have been
    polled before the card is touched. */
module SdCardDebounce {
  import opened SdCardMedia
  import Ticks

  function LastTime(time: nat, calls: seq<Call>): nat {
    if calls == [] then time else calls[|calls| - 1].time
  }

  /** Call times never go back. */
  predicate Ordered(time: nat, calls: seq<Call>) {
    calls == [] ||
    (var before := calls[..|calls| - 1];
     Ordered(time, before) && LastTime(time, before) <= calls[|calls| - 1].time)
  }

  function Times(polls: seq<Poll>): seq<nat> {
    seq(|polls|, i requires 0 <= i < |polls| => polls[i].time)
  }

  /** Polls are at least the interval apart. */
  predicate Spaced(polls: seq<Poll>) {
    Ticks.SpacedBy(Times(polls), 20)
  }

  /** The `n` polls before position `end` all saw `inserted`. */
  predicate Saw(polls: seq<Poll>, end: nat, n: nat, inserted: bool) {
    n <= end <= |polls| && forall i :: end - n <= i < end ==> polls[i].inserted == inserted
  }

  predicate Waiting(state: State) {
    state == WaitingForRemoval || state == WaitingForInsertion
  }

  predicate Detected(state: State) {
    !Waiting(state) && state != AnnounceRemoval && state != AnnounceInsertion
  }

  predicate NextPollValid(s: System, started: nat, now: nat) {
    if s.polls == [] then s.machine.nextPollAt == Ticks.Tick(started)
    else
      var last := s.polls[|s.polls| - 1].time;
      last <= now && s.machine.nextPollAt == Ticks.Later(Ticks.Tick(last), POLL_INTERVAL_MS)
  }

  /** A card seated at the start was seen removed before poll `end`. */
  predicate RemovalSeen(s: System, seated: bool, end: int) {
    seated ==> s.removalPolls <= end && Saw(s.polls, s.removalPolls, STABLE_POLLS, false)
  }

  predicate ProgressValid(s: System, seated: bool) {
    var m, n := s.machine, |s.polls|;
    match m.state
    case AnnounceRemoval => m.matchingPolls == 0
    case WaitingForRemoval => m.matchingPolls < STABLE_POLLS && Saw(s.polls, n, m.matchingPolls, false)
    case AnnounceInsertion => m.matchingPolls == 0 && RemovalSeen(s, seated, n)
    case WaitingForInsertion =>
      && m.matchingPolls < STABLE_POLLS && Saw(s.polls, n, m.matchingPolls, true)
      && RemovalSeen(s, seated, n - m.matchingPolls)
    case _ => Saw(s.polls, n, STABLE_POLLS, true) && RemovalSeen(s, seated, n - STABLE_POLLS)
  }

  predicate PollsValid(s: System, started: nat, seated: bool, now: nat) {
    Spaced(s.polls) && NextPollValid(s, started, now) && ProgressValid(s, seated)
  }

  lemma SpacedSnoc(polls: seq<Poll>, p: Poll)
    requires Spaced(polls) && (polls != [] ==> polls[|polls| - 1].time + POLL_INTERVAL_MS <= p.time)
    ensures Spaced(polls + [p])
  {
    Ticks.SpacedSnoc(Times(polls), POLL_INTERVAL_MS, p.time);
    assert Times(polls + [p]) == Times(polls) + [p.time];
  }

  lemma SawSnoc(polls: seq<Poll>, p: Poll, n: nat, inserted: bool)
    requires Saw(polls, |polls|, n, inserted)
    ensures Saw(polls + [p], |polls| + 1, if p.inserted == inserted then n + 1 else 0, inserted)
  {
  }

  lemma SawKept(polls: seq<Poll>, p: Poll, end: nat, n: nat, inserted: bool)
    requires Saw(polls, end, n, inserted)
    ensures Saw(polls + [p], end, n, inserted)
  {
  }

  /** One call of the debouncer. */
  lemma StableCardStateSound(s: System, call: Call, wanted: bool, started: nat, now: nat)
    requires Spaced(s.polls) && NextPollValid(s, started, now) && now <= call.time
    requires Saw(s.polls, |s.polls|, s.machine.matchingPolls, wanted)
    ensures var (t, stable) := StableCardState(s, call, wanted);
            && Spaced(t.polls) && NextPollValid(t, started, call.time)
            && Saw(t.polls, |t.polls|, t.machine.matchingPolls, wanted)
            && (t == s || t.polls == s.polls + [Poll(call.time, call.inserted)])
            && (stable <==> t != s && t.machine.matchingPolls >= STABLE_POLLS)
            && t.machine.matchingPolls <= s.machine.matchingPolls + (|t.polls| - |s.polls|)
  {
    var (t, stable) := StableCardState(s, call, wanted);
    if Ticks.Reached(Ticks.Tick(call.time), s.machine.nextPollAt) {
      var p := Poll(call.time, call.inserted);
      assert t.polls == s.polls + [p] && t.polls[|s.polls|] == p;
      if s.polls != [] {
        Ticks.NeverEarly(s.polls[|s.polls| - 1].time, POLL_INTERVAL_MS, call.time);
      }
      SpacedSnoc(s.polls, p);
      SawSnoc(s.polls, p, s.machine.matchingPolls, wanted);
    }
  }

  lemma WaitingKeepsValid(s: System, decode: Decoder, call: Call, started: nat, seated: bool, now: nat)
    requires PollsValid(s, started, seated, now) && now <= call.time && Waiting(s.machine.state)
    ensures PollsValid(Process(s, decode, call).0, started, seated, call.time)
  {
    var wanted := s.machine.state == WaitingForInsertion;
    StableCardStateSound(s, call, wanted, started, now);
    var (t, stable) := StableCardState(s, call, wanted);
    if t != s && seated && wanted {
      SawKept(s.polls, Poll(call.time, call.inserted), s.removalPolls, STABLE_POLLS, false);
    }
    if stable {
      assert t.machine.matchingPolls == STABLE_POLLS;
    }
  }

  lemma CardStatesDoNotPoll(s: System, decode: Decoder, call: Call)
    requires s.machine.state == Initializing || s.machine.state == Writing || s.machine.state == Verifying
             || s.machine.state == CleaningUp
    ensures var t := (if s.machine.state == Initializing then ProcessInitializing(s, call)
                      else if s.machine.state == Writing then ProcessWriting(s, decode, call)
                      else if s.machine.state == Verifying then ProcessVerifying(s, decode, call)
                      else ProcessCleaning(s, decode, call)).0;
            && t.polls == s.polls && t.removalPolls == s.removalPolls && t.machine.nextPollAt == s.machine.nextPollAt
            && t.machine.matchingPolls == s.machine.matchingPolls && Detected(t.machine.state)
  {
  }

  /** With the card detected nothing is polled, and it stays detected. */
  lemma DetectedDoesNotPoll(s: System, decode: Decoder, call: Call)
    requires Detected(s.machine.state)
    ensures var t := Process(s, decode, call).0;
            && t.polls == s.polls && t.removalPolls == s.removalPolls && t.machine.nextPollAt == s.machine.nextPollAt
            && t.machine.matchingPolls == s.machine.matchingPolls && Detected(t.machine.state)
  {
    match s.machine.state
    case Complete =>
    case Failed =>
    case _ =>
      if call.inserted {
        CardStatesDoNotPoll(s, decode, call);
      }
  }

  lemma ProcessKeepsValid(s: System, decode: Decoder, call: Call, started: nat, seated: bool, now: nat)
    requires PollsValid(s, started, seated, now) && now <= call.time
    ensures PollsValid(Process(s, decode, call).0, started, seated, call.time)
  {
    if Waiting(s.machine.state) {
      WaitingKeepsValid(s, decode, call, started, seated, now);
    } else {
      if Detected(s.machine.state) {
        DetectedDoesNotPoll(s, decode, call);
      }
      var t := Process(s, decode, call).0;
      assert NextPollValid(t, started, call.time);
      assert ProgressValid(t, seated);
    }
  }

  lemma {:induction false} PollsValidAlways(leftover: Machine, started: nat, seated: bool, cells: seq<Block>,
                                            decode: Decoder, calls: seq<Call>)
    requires Ordered(started, calls)
    ensures PollsValid(After(Start(leftover, started, seated, cells), decode, calls), started, seated,
                       LastTime(started, calls))
  {
    if calls != [] {
      var before := calls[..|calls| - 1];
      PollsValidAlways(leftover, started, seated, cells, decode, before);
      ProcessKeepsValid(After(Start(leftover, started, seated, cells), decode, before), decode, calls[|calls| - 1],
                        started, seated, LastTime(started, before));
    }
  }

  /** Three inserted polls end the history, each at least the interval after the one before; a
      card seated at the start was seen removed three times in a row before them. */
  predicate Debounced(polls: seq<Poll>, seated: bool) {
    var n := |polls|;
    && n >= 3 && Saw(polls, n, 3, true)
    && polls[n - 3].time + 20 <= polls[n - 2].time && polls[n - 2].time + 20 <= polls[n - 1].time
    && (seated ==> exists removed: nat :: removed <= n - 3 && Saw(polls, removed, 3, false))
  }

  lemma DetectedPolls(s: System, seated: bool)
    requires Spaced(s.polls) && ProgressValid(s, seated) && Detected(s.machine.state)
    ensures Debounced(s.polls, seated)
  {
    Ticks.SpacedEverywhere(Times(s.polls), POLL_INTERVAL_MS, |s.polls| - 3);
    Ticks.SpacedEverywhere(Times(s.polls), POLL_INTERVAL_MS, |s.polls| - 2);
  }

  /** Initialization is reached only after three consecutive inserted polls at least 20 ms
      apart, and if a card was seated at the start, after three consecutive removed polls
      before them.  True time is unbounded and calls may be arbitrarily late. */
  lemma InitializationIsDebounced(leftover: Machine, started: nat, seated: bool, cells: seq<Block>, decode: Decoder,
                                  calls: seq<Call>)
    requires Ordered(started, calls)
    requires Detected(After(Start(leftover, started, seated, cells), decode, calls).machine.state)
    ensures Debounced(After(Start(leftover, started, seated, cells), decode, calls).polls, seated)
  {
    PollsValidAlways(leftover, started, seated, cells, decode, calls);
    DetectedPolls(After(Start(leftover, started, seated, cells), decode, calls), seated);
  }

  /** When the next poll falls due: at the start, and then 20 ms after the last one. */
  function DueAt(s: System, started: nat): nat {
    if s.polls == [] then started else s.polls[|s.polls| - 1].time + 20
  }

  /** While waiting, a call polls exactly when the poll is due, provided it comes less than
      2^31 ms after that. */
  lemma PolledExactlyWhenDue(s: System, call: Call, wanted: bool, started: nat, now: nat)
    requires NextPollValid(s, started, now) && started <= now <= call.time
    requires call.time < DueAt(s, started) + Ticks.HALF
    ensures |StableCardState(s, call, wanted).0.polls| > |s.polls| <==> DueAt(s, started) <= call.time
  {
    if s.polls != [] {
      Ticks.LaterIsTick(s.polls[|s.polls| - 1].time, POLL_INTERVAL_MS);
    }
    Ticks.ReachedIffPassed(call.time, DueAt(s, started));
  }

  // ---------------------------------------------------------------- exactly the third poll

  /** How many polls in a row, none before position `from`, have just seen `wanted`. */
  function Streak(polls: seq<Poll>, from: nat, wanted: bool): nat {
    if |polls| <= from || polls[|polls| - 1].inserted != wanted then 0
    else Streak(polls[..|polls| - 1], from, wanted) + 1
  }

  lemma StreakSnoc(polls: seq<Poll>, p: Poll, from: nat, wanted: bool)
    requires from <= |polls|
    ensures Streak(polls + [p], from, wanted) == if p.inserted == wanted then Streak(polls, from, wanted) + 1 else 0
  {
    assert (polls + [p])[..|polls|] == polls;
  }

  /** The counter is the streak since the state was entered. */
  predicate Counted(s: System) {
    var m := s.machine;
    match m.state
    case AnnounceRemoval => s.polls == [] && m.matchingPolls == 0
    case WaitingForRemoval => m.matchingPolls == Streak(s.polls, 0, false) < 3
    case AnnounceInsertion => s.removalPolls == |s.polls| && m.matchingPolls == 0
    case WaitingForInsertion =>
      s.removalPolls <= |s.polls| && m.matchingPolls == Streak(s.polls, s.removalPolls, true) < 3
    case _ => true
  }

  /** One call while waiting: it confirms exactly when it is the third matching poll in a row. */
  lemma WaitingCounts(s: System, decode: Decoder, call: Call)
    requires Counted(s) && Waiting(s.machine.state)
    ensures Counted(Process(s, decode, call).0) && ConfirmsAtThird(s, Process(s, decode, call).0,
                                                                   Process(s, decode, call).1)
  {
    var wanted := s.machine.state == WaitingForInsertion;
    StreakSnoc(s.polls, Poll(call.time, call.inserted), if wanted then s.removalPolls else 0, wanted);
  }

  /** Waiting for removal or insertion ends with the third matching poll in a row since it began,
      not sooner and not later. */
  predicate ConfirmsAtThird(s: System, t: System, result: Result) {
    var inserting := s.machine.state == WaitingForInsertion;
    var third := |t.polls| == |s.polls| + 1 && Streak(t.polls, if inserting then s.removalPolls else 0, inserting) == 3;
    && (result == if !third then Running
                  else Emitted(Message(if inserting then "sd_card_detected" else "sd_card_removed")))
    && (t.machine.state == if !third then s.machine.state
                           else if inserting then Initializing else AnnounceInsertion)
  }

  lemma ProcessCounts(s: System, decode: Decoder, call: Call)
    requires Counted(s)
    ensures Counted(Process(s, decode, call).0)
  {
    if Waiting(s.machine.state) {
      WaitingCounts(s, decode, call);
    } else if Detected(s.machine.state) {
      DetectedDoesNotPoll(s, decode, call);
    }
  }

  lemma {:induction false} CountedAlways(leftover: Machine, started: nat, seated: bool, cells: seq<Block>,
                                         decode: Decoder, calls: seq<Call>)
    ensures Counted(After(Start(leftover, started, seated, cells), decode, calls))
  {
    if calls != [] {
      CountedAlways(leftover, started, seated, cells, decode, calls[..|calls| - 1]);
      ProcessCounts(After(Start(leftover, started, seated, cells), decode, calls[..|calls| - 1]), decode,
                    calls[|calls| - 1]);
    }
  }

  /** Up to initialization: the test asks for the card to be removed, if one is seated, and to be
      inserted, and each is confirmed by exactly the third matching poll in a row. */
  lemma ConfirmedAtTheThirdPoll(leftover: Machine, started: nat, seated: bool, cells: seq<Block>, decode: Decoder,
                                calls: seq<Call>, call: Call)
    ensures var s := After(Start(leftover, started, seated, cells), decode, calls);
            var (t, result) := Process(s, decode, call);
            && (calls == [] ==> s.machine.state == if seated then AnnounceRemoval else AnnounceInsertion)
            && (s.machine.state == AnnounceRemoval ==>
                  t.machine.state == WaitingForRemoval && result == Emitted(Message("sd_card_remove_required")))
            && (s.machine.state == AnnounceInsertion ==>
                  t.machine.state == WaitingForInsertion && result == Emitted(Message("sd_card_insert_required")))
            && (Waiting(s.machine.state) ==> ConfirmsAtThird(s, t, result))
  {
    var s := After(Start(leftover, started, seated, cells), decode, calls);
    CountedAlways(leftover, started, seated, cells, decode, calls);
    if Waiting(s.machine.state) {
      WaitingCounts(s, decode, call);
    }
  }
}
